// The accumulator of a final ranking and who won a slot (packages/types/src/final-ranking-core.ts).
module FinalRankingCore {
  import opened Options
  import opened Sorting

  datatype Slot = Slot(
    id: string,
    round: int,
    position: int,
    status: string,
    redRegistrationId: Option<string>,
    blueRegistrationId: Option<string>,
    redFighterName: Option<string>,
    blueFighterName: Option<string>,
    redClubAbbrev: Option<string>,
    blueClubAbbrev: Option<string>,
    redScore: Option<real>,
    blueScore: Option<real>,
    winnerRegistrationId: Option<string>)

  /** A score that is null or not finite is none. */
  datatype PoolEntry = PoolEntry(registrationId: string, fighterName: string, clubAbbrev: Option<string>,
                                 poolScore: Option<real>)

  datatype ResultKind = Champion | RunnerUp | Third | Fourth | InRound | InPool | InSwiss

  datatype Section = WinnersBracket | LosersBracket | PlayIn

  datatype Entry = Entry(
    place: nat,
    registrationId: string,
    fighterName: string,
    clubAbbrev: Option<string>,
    poolScore: Option<real>,
    kind: ResultKind,
    eliminationRound: Option<int>,
    section: Option<Section>)

  datatype Side = Side(registrationId: string, fighterName: string, clubAbbrev: Option<string>)

  datatype Decided = Decided(winner: Side, loser: Side)

  /** JavaScript reads an empty text as no text. */
  predicate Given(text: Option<string>)
  {
    text.Some? && text.value != ""
  }

  function RedOf(slot: Slot): Side
    requires Given(slot.redRegistrationId) && Given(slot.redFighterName)
  {
    Side(slot.redRegistrationId.value, slot.redFighterName.value, slot.redClubAbbrev)
  }

  function BlueOf(slot: Slot): Side
    requires Given(slot.blueRegistrationId) && Given(slot.blueFighterName)
  {
    Side(slot.blueRegistrationId.value, slot.blueFighterName.value, slot.blueClubAbbrev)
  }

  /** `winnerLoser`: the recorded winner, else the higher score, of a completed slot with both sides. */
  function WinnerLoser(slot: Slot): Option<Decided>
  {
    if slot.status != "completed" then None
    else if !Given(slot.redRegistrationId) || !Given(slot.blueRegistrationId) then None
    else if !Given(slot.redFighterName) || !Given(slot.blueFighterName) then None
    else
      var red, blue := RedOf(slot), BlueOf(slot);
      if slot.winnerRegistrationId == Some(red.registrationId) then Some(Decided(red, blue))
      else if slot.winnerRegistrationId == Some(blue.registrationId) then Some(Decided(blue, red))
      else if slot.redScore.None? || slot.blueScore.None? || slot.redScore == slot.blueScore then None
      else if slot.redScore.value > slot.blueScore.value then Some(Decided(red, blue))
      else Some(Decided(blue, red))
  }

  /** What ties are broken by: the pool scores, and the rank a locale gives each name. */
  datatype Context = Context(scores: map<string, real>, collate: string -> real)

  function ScoreOf(ctx: Context, id: string): Option<real>
  {
    if id in ctx.scores then Some(ctx.scores[id]) else None
  }

  /** `byPoolScore(a, b) < 0`: the higher pool score first, a missing one last, then the name. */
  predicate ScoresBefore(ctx: Context, a: Side, b: Side)
  {
    match (ScoreOf(ctx, a.registrationId), ScoreOf(ctx, b.registrationId))
    case (Some(x), None) => true
    case (None, Some(y)) => false
    case (Some(x), Some(y)) => x > y || (x == y && ctx.collate(a.fighterName) < ctx.collate(b.fighterName))
    case (None, None) => ctx.collate(a.fighterName) < ctx.collate(b.fighterName)
  }

  function ByPoolScore(ctx: Context): (Side, Side) -> bool
  {
    (a, b) => ScoresBefore(ctx, a, b)
  }

  lemma {:induction false} ByPoolScoreIsOrder(ctx: Context)
    ensures IsOrder(ByPoolScore(ctx))
  {
  }

  function PoolScores(pools: seq<PoolEntry>): map<string, real>
  {
    if pools == [] then map[]
    else
      var e := pools[|pools| - 1];
      var earlier := PoolScores(pools[..|pools| - 1]);
      if e.poolScore.Some? then earlier[e.registrationId := e.poolScore.value] else earlier
  }

  // ---- one push after another ----

  predicate Has(entries: seq<Entry>, id: string)
  {
    exists i :: 0 <= i < |entries| && entries[i].registrationId == id
  }

  lemma {:induction false} HasOneMore(entries: seq<Entry>, entry: Entry, id: string)
    ensures Has(entries + [entry], id) <==> Has(entries, id) || id == entry.registrationId
  {
    var longer := entries + [entry];
    if Has(entries, id) {
      var i :| 0 <= i < |entries| && entries[i].registrationId == id;
      assert longer[i].registrationId == id;
    }
    assert longer[|entries|] == entry;
  }

  /** What an entry says beside its side and kind. */
  datatype Exit = Exit(round: Option<int>, section: Option<Section>)

  const NO_EXIT := Exit(None, None)

  /** `push`: the next place, once per registration. */
  function Push(ctx: Context, entries: seq<Entry>, side: Side, kind: ResultKind, exit: Exit): seq<Entry>
  {
    if Has(entries, side.registrationId) then entries
    else entries + [Entry(|entries| + 1, side.registrationId, side.fighterName, side.clubAbbrev,
                          ScoreOf(ctx, side.registrationId), kind, exit.round, exit.section)]
  }

  /** The kind of a round's loser: 3rd and 4th are medals when the round decides them. */
  function RoundKind(placed: nat, podiumKinds: bool): ResultKind
  {
    if podiumKinds && placed == 2 then Third else if podiumKinds && placed == 3 then Fourth else InRound
  }

  function PushEach(ctx: Context, entries: seq<Entry>, sides: seq<Side>, exit: Exit, podiumKinds: bool): seq<Entry>
  {
    if sides == [] then entries
    else
      var earlier := PushEach(ctx, entries, sides[..|sides| - 1], exit, podiumKinds);
      Push(ctx, earlier, sides[|sides| - 1], RoundKind(|earlier|, podiumKinds), exit)
  }

  function PushRound(ctx: Context, entries: seq<Entry>, losers: seq<Side>, exit: Exit, podiumKinds: bool): seq<Entry>
  {
    PushEach(ctx, entries, SortBy(losers, ByPoolScore(ctx)), exit, podiumKinds)
  }

  /** Places run 1, 2, 3 and so on, and no registration is placed twice. */
  ghost predicate Placed(entries: seq<Entry>)
  {
    && (forall i :: 0 <= i < |entries| ==> entries[i].place == i + 1)
    && (forall i, j :: 0 <= i < j < |entries| ==> entries[i].registrationId != entries[j].registrationId)
  }

  class Ranking {
    const collate: string -> real
    var entries: seq<Entry>
    var placed: set<string>
    var poolScoreByReg: map<string, real>

    ghost predicate Valid()
      reads this
    {
      Placed(entries) && forall id :: id in placed <==> Has(entries, id)
    }

    ghost function Ctx(): Context
      reads this`poolScoreByReg
    {
      Context(poolScoreByReg, collate)
    }

    constructor (poolEntries: seq<PoolEntry>, collate: string -> real)
      ensures Valid() && entries == [] && Ctx() == Context(PoolScores(poolEntries), collate)
    {
      this.collate := collate;
      entries, placed, poolScoreByReg := [], {}, map[];
      new;
      for i := 0 to |poolEntries|
        invariant poolScoreByReg == PoolScores(poolEntries[..i])
        invariant this.collate == collate && entries == [] && placed == {}
      {
        assert poolEntries[..i + 1][..i] == poolEntries[..i];
        if poolEntries[i].poolScore.Some? {
          poolScoreByReg := poolScoreByReg[poolEntries[i].registrationId := poolEntries[i].poolScore.value];
        }
      }
      assert poolEntries[..|poolEntries|] == poolEntries;
    }

    method PoolScoreOf(id: string) returns (score: Option<real>)
      ensures score == ScoreOf(Ctx(), id)
    {
      score := if id in poolScoreByReg then Some(poolScoreByReg[id]) else None;
    }

    method Add(side: Side, kind: ResultKind, exit: Exit)
      requires Valid()
      modifies this`entries, this`placed
      ensures Valid() && entries == Push(Ctx(), old(entries), side, kind, exit)
    {
      if side.registrationId in placed {
        return;
      }
      var score := PoolScoreOf(side.registrationId);
      var entry := Entry(|entries| + 1, side.registrationId, side.fighterName, side.clubAbbrev, score,
                         kind, exit.round, exit.section);
      forall id
        ensures Has(entries + [entry], id) <==> Has(entries, id) || id == side.registrationId
      {
        HasOneMore(entries, entry, id);
      }
      entries := entries + [entry];
      placed := placed + {side.registrationId};
    }

    method AddRound(losers: seq<Side>, exit: Exit, podiumKinds: bool)
      requires Valid()
      modifies this`entries, this`placed
      ensures Valid() && entries == PushRound(Ctx(), old(entries), losers, exit, podiumKinds)
    {
      var ctx := Context(poolScoreByReg, collate);
      var sorted := SortBy(losers, ByPoolScore(ctx));
      for i := 0 to |sorted|
        invariant Valid() && Ctx() == ctx
        invariant entries == PushEach(ctx, old(entries), sorted[..i], exit, podiumKinds)
      {
        assert sorted[..i + 1][..i] == sorted[..i];
        Add(sorted[i], RoundKind(|entries|, podiumKinds), exit);
      }
      assert sorted[..|sorted|] == sorted;
    }
  }

  // ---- losers by round ----

  /** The loser of a decided slot who is not placed yet. */
  function FreeLoser(slot: Slot, entries: seq<Entry>): Option<Side>
  {
    match WinnerLoser(slot)
    case None => None
    case Some(wl) => if Has(entries, wl.loser.registrationId) then None else Some(wl.loser)
  }

  /** The rounds that have such a loser, in the order the slots first show them. */
  function LoserRounds(slots: seq<Slot>, entries: seq<Entry>): seq<int>
  {
    if slots == [] then []
    else
      var earlier, slot := LoserRounds(slots[..|slots| - 1], entries), slots[|slots| - 1];
      if FreeLoser(slot, entries).Some? && slot.round !in earlier then earlier + [slot.round] else earlier
  }

  function LosersIn(slots: seq<Slot>, entries: seq<Entry>, round: int): seq<Side>
  {
    if slots == [] then []
    else
      var earlier, slot := LosersIn(slots[..|slots| - 1], entries, round), slots[|slots| - 1];
      match FreeLoser(slot, entries)
      case None => earlier
      case Some(loser) => if slot.round == round then earlier + [loser] else earlier
  }

  /** `losersByRound`: one group per round; `rounds` is the order the map holds its keys in. */
  method LosersByRound(slots: seq<Slot>, r: Ranking) returns (out: map<int, seq<Side>>, rounds: seq<int>)
    requires r.Valid()
    ensures rounds == LoserRounds(slots, r.entries)
    ensures forall round :: round in out <==> round in rounds
    ensures forall round :: round in out ==> out[round] == LosersIn(slots, r.entries, round)
  {
    out, rounds := map[], [];
    for i := 0 to |slots|
      invariant rounds == LoserRounds(slots[..i], r.entries)
      invariant forall round :: round in out <==> round in rounds
      invariant forall round :: LosersIn(slots[..i], r.entries, round) == if round in out then out[round] else []
    {
      assert slots[..i + 1][..i] == slots[..i];
      var wl := WinnerLoser(slots[i]);
      if wl.None? || wl.value.loser.registrationId in r.placed {
        continue;
      }
      var round := slots[i].round;
      var group := if round in out then out[round] else [];
      if round !in out {
        rounds := rounds + [round];
      }
      out := out[round := group + [wl.value.loser]];
    }
    assert slots[..|slots|] == slots;
  }

  predicate Deeper(a: int, b: int)
  {
    a > b
  }

  /** Every group, deepest round first, each named by `exitOf`. */
  function PushRounds(ctx: Context, entries: seq<Entry>, rounds: seq<int>, group: int -> seq<Side>,
                      exitOf: int -> Exit, podiumKinds: bool): seq<Entry>
  {
    if rounds == [] then entries
    else
      var earlier := PushRounds(ctx, entries, rounds[..|rounds| - 1], group, exitOf, podiumKinds);
      var round := rounds[|rounds| - 1];
      PushRound(ctx, earlier, group(round), exitOf(round), podiumKinds)
  }

  function PushLosers(ctx: Context, entries: seq<Entry>, slots: seq<Slot>, exitOf: int -> Exit, podiumKinds: bool): seq<Entry>
  {
    PushRounds(ctx, entries, SortBy(LoserRounds(slots, entries), Deeper), round => LosersIn(slots, entries, round),
               exitOf, podiumKinds)
  }

  /** The losers of some slots, deepest round first. */
  method AddLosers(r: Ranking, slots: seq<Slot>, exitOf: int -> Exit, podiumKinds: bool)
    requires r.Valid()
    modifies r`entries, r`placed
    ensures r.Valid() && r.entries == PushLosers(r.Ctx(), old(r.entries), slots, exitOf, podiumKinds)
  {
    ghost var ctx, was := r.Ctx(), r.entries;
    ghost var group := round => LosersIn(slots, was, round);
    var byRound, keys := LosersByRound(slots, r);
    var rounds := SortBy(keys, Deeper);
    SortKeeps(keys, Deeper);
    for i := 0 to |rounds|
      invariant r.Valid() && r.Ctx() == ctx
      invariant r.entries == PushRounds(ctx, was, rounds[..i], group, exitOf, podiumKinds)
    {
      assert rounds[..i + 1][..i] == rounds[..i];
      SameMultisetSameMembers(rounds, keys, rounds[i]);
      r.AddRound(byRound[rounds[i]], exitOf(rounds[i]), podiumKinds);
    }
    assert rounds[..|rounds|] == rounds;
  }
}
