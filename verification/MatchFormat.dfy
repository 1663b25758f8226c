// The arithmetic of a bout: its score, when it ends, and a best-of series (packages/rules/src/match-format.ts).
module MatchFormat {
  import opened Numbers
  import opened Options

  datatype Color = Red | Blue

  datatype ExchangeType = Clean | Afterblow | Double | NoExchange

  datatype Exchange = Exchange(kind: ExchangeType, firstStriker: Option<Color>, firstStrikeValue: Option<int>,
                               afterblowValue: Option<int>, voided: bool)

  datatype AfterblowMode = Full | Deductive

  datatype PhaseType = Pool | SwissRound | SingleElimination | DoubleElimination

  datatype FormatPhase = PoolPhase | SwissPhase | BracketPhase | FinalsPhase

  /** What the deciders read of a match; `medal` is whether its label names a medal match. */
  datatype Bout = Bout(phaseType: Option<PhaseType>, medal: bool)

  datatype Direction = CountUp | CountDown

  datatype CeilingOutcome = DoubleLossZeroScores | DrawZeroScores | ResultStands

  datatype LevelStep = Draw | SuddenDeath | ExtraTime(seconds: nat)

  datatype ByPhase<T> = ByPhase(pool: T, swiss: Option<T>, bracket: T, finals: T)

  datatype Config = Config(
    pointCap: int,
    direction: Direction,
    maxDoubleHits: Option<int>,
    ceilingOutcome: CeilingOutcome,
    bestOf: ByPhase<int>,
    levelAtTime: ByPhase<seq<LevelStep>>)

  datatype Score = Score(
    red: int,
    blue: int,
    redTargetPoints: int,
    blueTargetPoints: int,
    redTimesHit: int,
    blueTimesHit: int,
    doubles: int,
    redBelowZero: Option<int>,
    blueBelowZero: Option<int>)

  datatype Edition = Edition2026April | Edition2026October

  // ---- phases ----

  function FormatPhaseOf(bout: Bout): FormatPhase
  {
    if bout.phaseType == Some(Pool) then PoolPhase
    else if bout.phaseType == Some(SwissRound) then SwissPhase
    else if bout.medal then FinalsPhase
    else BracketPhase
  }

  function ForPhase<T>(byPhase: ByPhase<T>, bout: Bout): T
  {
    match FormatPhaseOf(bout)
    case PoolPhase => byPhase.pool
    case SwissPhase => if byPhase.swiss.Some? then byPhase.swiss.value else byPhase.pool
    case BracketPhase => byPhase.bracket
    case FinalsPhase => byPhase.finals
  }

  predicate IsGroupStage(bout: Bout)
  {
    bout.phaseType == Some(Pool) || bout.phaseType == Some(SwissRound)
  }

  /** `chainAllowsLevelEnd`. */
  predicate ChainAllowsLevelEnd(config: Config, bout: Bout)
  {
    exists i :: 0 <= i < |ForPhase(config.levelAtTime, bout)| && ForPhase(config.levelAtTime, bout)[i] == Draw
  }

  /** The doubles ceiling counts in group stages only. */
  function EffectiveMaxDoubles(bout: Bout, config: Config): Option<int>
  {
    if IsGroupStage(bout) then config.maxDoubleHits else None
  }

  predicate AtCeiling(bout: Bout, doubles: int, config: Config)
  {
    EffectiveMaxDoubles(bout, config).Some? && doubles >= EffectiveMaxDoubles(bout, config).value
  }

  predicate CeilingZeroesScores(config: Config)
  {
    config.ceilingOutcome != ResultStands
  }

  // ---- what the exchanges are worth ----

  datatype Deltas = Deltas(attacker: int, defender: int)

  /** `computeAfterblowDeltas` (packages/rules/src/afterblow.ts). */
  function AfterblowDeltas(mode: AfterblowMode, attacker: int, defender: int): Deltas
  {
    match mode
    case Deductive => Deltas(Max(0, attacker - defender), 0)
    case Full => Deltas(attacker, defender)
  }

  /** What `color` scores by one exchange. */
  function Earns(ex: Exchange, mode: AfterblowMode, color: Color): int
  {
    if ex.voided || ex.firstStriker.None? then 0
    else
      match ex.kind
      case Clean => if ex.firstStriker.value == color then OrZero(ex.firstStrikeValue) else 0
      case Afterblow =>
        var d := AfterblowDeltas(mode, OrZero(ex.firstStrikeValue), OrZero(ex.afterblowValue));
        if ex.firstStriker.value == color then d.attacker else d.defender
      case Double => 0
      case NoExchange => 0
  }

  /** A clean hit lands on the other side; an afterblow is counted against the one who struck first. */
  function IsHit(ex: Exchange, color: Color): int
  {
    if ex.voided || ex.firstStriker.None? then 0
    else
      match ex.kind
      case Clean => if ex.firstStriker.value == color then 0 else 1
      case Afterblow => if ex.firstStriker.value == color then 1 else 0
      case Double => 0
      case NoExchange => 0
  }

  function IsDouble(ex: Exchange): int
  {
    if !ex.voided && ex.kind == Double then 1 else 0
  }

  function Sum(exchanges: seq<Exchange>, worth: Exchange -> int): int
  {
    if exchanges == [] then 0 else Sum(exchanges[..|exchanges| - 1], worth) + worth(exchanges[|exchanges| - 1])
  }

  function Earned(exchanges: seq<Exchange>, mode: AfterblowMode, color: Color): int
  {
    Sum(exchanges, ex => Earns(ex, mode, color))
  }

  function TimesHit(exchanges: seq<Exchange>, color: Color): int
  {
    Sum(exchanges, ex => IsHit(ex, color))
  }

  function Doubles(exchanges: seq<Exchange>): int
  {
    Sum(exchanges, ex => IsDouble(ex))
  }

  datatype Board = Board(red: int, blue: int)

  /** `applyScoringDirection`: counting down, a side loses what the other earned and stops at zero. */
  function ApplyDirection(config: Config, red: int, blue: int): Board
  {
    match config.direction
    case CountUp => Board(red, blue)
    case CountDown => Board(Max(0, config.pointCap - blue), Max(0, config.pointCap - red))
  }

  datatype Below = Below(red: Option<int>, blue: Option<int>)

  function BelowZero(config: Config, red: int, blue: int): Below
  {
    match config.direction
    case CountUp => Below(None, None)
    case CountDown => Below(Some(Max(0, blue - config.pointCap)), Some(Max(0, red - config.pointCap)))
  }

  /** The score of a bout, from what its exchanges are worth. */
  function ScoreOf(bout: Bout, exchanges: seq<Exchange>, config: Config, mode: AfterblowMode): Score
  {
    var red, blue, doubles := Earned(exchanges, mode, Red), Earned(exchanges, mode, Blue), Doubles(exchanges);
    var redHit, blueHit := TimesHit(exchanges, Red), TimesHit(exchanges, Blue);
    if AtCeiling(bout, doubles, config) && CeilingZeroesScores(config) then
      Score(0, 0, red, blue, redHit, blueHit, doubles, None, None)
    else
      var board, below := ApplyDirection(config, red, blue), BelowZero(config, red, blue);
      Score(board.red, board.blue, red, blue, redHit, blueHit, doubles, below.red, below.blue)
  }

  /** `exchanges.filter((e) => !e.voided)`. */
  function Active(exchanges: seq<Exchange>): seq<Exchange>
  {
    if exchanges == [] then []
    else
      var earlier := Active(exchanges[..|exchanges| - 1]);
      if exchanges[|exchanges| - 1].voided then earlier else earlier + [exchanges[|exchanges| - 1]]
  }

  /** A voided exchange is worth nothing, so leaving it out changes no sum. */
  lemma {:induction false} ActiveIsEnough(exchanges: seq<Exchange>, worth: Exchange -> int)
    requires forall ex: Exchange :: ex.voided ==> worth(ex) == 0
    ensures Sum(Active(exchanges), worth) == Sum(exchanges, worth)
    ensures forall ex :: ex in Active(exchanges) ==> !ex.voided
  {
    if exchanges != [] {
      ActiveIsEnough(exchanges[..|exchanges| - 1], worth);
    }
  }

  lemma {:induction false} ActiveScoresTheSame(exchanges: seq<Exchange>, mode: AfterblowMode)
    ensures Earned(Active(exchanges), mode, Red) == Earned(exchanges, mode, Red)
    ensures Earned(Active(exchanges), mode, Blue) == Earned(exchanges, mode, Blue)
    ensures TimesHit(Active(exchanges), Red) == TimesHit(exchanges, Red)
    ensures TimesHit(Active(exchanges), Blue) == TimesHit(exchanges, Blue)
    ensures Doubles(Active(exchanges)) == Doubles(exchanges)
    ensures forall ex :: ex in Active(exchanges) ==> !ex.voided
  {
    ActiveIsEnough(exchanges, ex => Earns(ex, mode, Red));
    ActiveIsEnough(exchanges, ex => Earns(ex, mode, Blue));
    ActiveIsEnough(exchanges, ex => IsHit(ex, Red));
    ActiveIsEnough(exchanges, ex => IsHit(ex, Blue));
    ActiveIsEnough(exchanges, ex => IsDouble(ex));
  }

  method ComputeMatchFormatScore(bout: Bout, exchanges: seq<Exchange>, config: Config, mode: AfterblowMode) returns (score: Score)
    ensures score == ScoreOf(bout, exchanges, config, mode)
  {
    var active := Active(exchanges);
    ActiveScoresTheSame(exchanges, mode);
    var redEarned, blueEarned, redTarget, blueTarget := 0, 0, 0, 0;
    var redTimesHit, blueTimesHit, doubles := 0, 0, 0;
    for i := 0 to |active|
      invariant redEarned == redTarget == Earned(active[..i], mode, Red)
      invariant blueEarned == blueTarget == Earned(active[..i], mode, Blue)
      invariant redTimesHit == TimesHit(active[..i], Red)
      invariant blueTimesHit == TimesHit(active[..i], Blue)
      invariant doubles == Doubles(active[..i])
    {
      assert active[..i + 1][..i] == active[..i];
      var ex := active[i];
      assert ex in active;
      match ex.kind {
        case Clean =>
          if ex.firstStriker == Some(Red) {
            redEarned := redEarned + OrZero(ex.firstStrikeValue);
            redTarget := redTarget + OrZero(ex.firstStrikeValue);
            blueTimesHit := blueTimesHit + 1;
          } else if ex.firstStriker == Some(Blue) {
            blueEarned := blueEarned + OrZero(ex.firstStrikeValue);
            blueTarget := blueTarget + OrZero(ex.firstStrikeValue);
            redTimesHit := redTimesHit + 1;
          }
        case Afterblow =>
          var d := AfterblowDeltas(mode, OrZero(ex.firstStrikeValue), OrZero(ex.afterblowValue));
          if ex.firstStriker == Some(Red) {
            redEarned := redEarned + d.attacker;
            redTarget := redTarget + d.attacker;
            blueEarned := blueEarned + d.defender;
            blueTarget := blueTarget + d.defender;
            redTimesHit := redTimesHit + 1;
          } else if ex.firstStriker == Some(Blue) {
            blueEarned := blueEarned + d.attacker;
            blueTarget := blueTarget + d.attacker;
            redEarned := redEarned + d.defender;
            redTarget := redTarget + d.defender;
            blueTimesHit := blueTimesHit + 1;
          }
        case Double =>
          doubles := doubles + 1;
        case NoExchange =>
      }
    }
    assert active[..|active|] == active;
    if AtCeiling(bout, doubles, config) && CeilingZeroesScores(config) {
      return Score(0, 0, redTarget, blueTarget, redTimesHit, blueTimesHit, doubles, None, None);
    }
    var board := ApplyDirection(config, redEarned, blueEarned);
    var below := BelowZero(config, redEarned, blueEarned);
    score := Score(board.red, board.blue, redTarget, blueTarget, redTimesHit, blueTimesHit, doubles, below.red, below.blue);
  }

  // ---- who leads, and the end of a bout ----

  function LeadingColor(red: int, blue: int): Option<Color>
  {
    if red > blue then Some(Red) else if blue > red then Some(Blue) else None
  }

  /** What moved between the editions, for a bout that counts down only. */
  predicate LessFarBelowLeads(edition: Edition)
  {
    edition == Edition2026October
  }

  predicate DoublesBeforeCap(edition: Edition)
  {
    edition == Edition2026October
  }

  function CapLeader(score: Score, config: Config, edition: Edition): Option<Color>
  {
    if config.direction == CountUp || !LessFarBelowLeads(edition) then LeadingColor(score.red, score.blue)
    else LeadingColor(score.red - OrZero(score.redBelowZero), score.blue - OrZero(score.blueBelowZero))
  }

  function PointCapWinnerColor(score: Score, config: Config, edition: Edition): Option<Color>
  {
    match config.direction
    case CountDown =>
      if score.red <= 0 && score.blue <= 0 then CapLeader(score, config, edition)
      else if score.red <= 0 then Some(Blue)
      else if score.blue <= 0 then Some(Red)
      else None
    case CountUp =>
      if score.red >= config.pointCap && score.blue >= config.pointCap then LeadingColor(score.red, score.blue)
      else if score.red >= config.pointCap then Some(Red)
      else if score.blue >= config.pointCap then Some(Blue)
      else None
  }

  predicate IsPointCapReached(score: Score, config: Config)
  {
    match config.direction
    case CountDown => score.red <= 0 || score.blue <= 0
    case CountUp => score.red >= config.pointCap || score.blue >= config.pointCap
  }

  predicate PointCapEndsBout(bout: Bout, score: Score, config: Config, edition: Edition)
  {
    && IsPointCapReached(score, config)
    && (CapLeader(score, config, edition).Some? || ChainAllowsLevelEnd(config, bout))
  }

  datatype EndReason = FirstToPoints | MaxDoubles | MaxDoublesDraw | MaxDoublesResultStands

  datatype Outcome = Outcome(autoOver: bool, winner: Option<Color>, endReason: Option<EndReason>)

  const OPEN := Outcome(false, None, None)

  function CeilingReason(config: Config): EndReason
  {
    match config.ceilingOutcome
    case DrawZeroScores => MaxDoublesDraw
    case ResultStands => MaxDoublesResultStands
    case DoubleLossZeroScores => MaxDoubles
  }

  function CeilingEnd(score: Score, config: Config): Outcome
  {
    Outcome(true, if CeilingZeroesScores(config) then None else LeadingColor(score.red, score.blue), Some(CeilingReason(config)))
  }

  /** `roundOutcome`: the cap first, except in a bout that counts down since the October edition. */
  function RoundOutcome(bout: Bout, score: Score, config: Config, edition: Edition): Outcome
  {
    if AtCeiling(bout, score.doubles, config) && config.direction == CountDown && DoublesBeforeCap(edition) then
      CeilingEnd(score, config)
    else if PointCapEndsBout(bout, score, config, edition) then
      Outcome(true, PointCapWinnerColor(score, config, edition), Some(FirstToPoints))
    else if AtCeiling(bout, score.doubles, config) then CeilingEnd(score, config)
    else OPEN
  }

  /** How a bout of these exchanges ends. */
  function BoutOutcome(bout: Bout, exchanges: seq<Exchange>, config: Config, mode: AfterblowMode, edition: Edition): Outcome
  {
    RoundOutcome(bout, ScoreOf(bout, exchanges, config, mode), config, edition)
  }

  // ---- counting down is counting up ----

  predicate Wiped(bout: Bout, exchanges: seq<Exchange>, config: Config)
  {
    AtCeiling(bout, Doubles(exchanges), config) && CeilingZeroesScores(config)
  }

  function Up(config: Config): Config
  {
    config.(direction := CountUp)
  }

  function Down(config: Config): Config
  {
    config.(direction := CountDown)
  }

  /** What the board shows, less what went under zero, is exactly the cap less what the opponent earned. */
  lemma {:induction false} BelowZeroKeepsTheCount(bout: Bout, exchanges: seq<Exchange>, config: Config, mode: AfterblowMode)
    requires !Wiped(bout, exchanges, config)
    ensures
      var score := ScoreOf(bout, exchanges, Down(config), mode);
      && score.redBelowZero.Some? && score.blueBelowZero.Some?
      && score.red - score.redBelowZero.value == config.pointCap - Earned(exchanges, mode, Blue)
      && score.blue - score.blueBelowZero.value == config.pointCap - Earned(exchanges, mode, Red)
      && (score.red == 0 || score.redBelowZero.value == 0) && score.red >= 0 && score.redBelowZero.value >= 0
      && (score.blue == 0 || score.blueBelowZero.value == 0) && score.blue >= 0 && score.blueBelowZero.value >= 0
  {
  }

  /** The one family of bouts where the two directions part: the ceiling stands, and the cap ended the bout too. */
  predicate CapAndStandingCeiling(bout: Bout, exchanges: seq<Exchange>, config: Config, mode: AfterblowMode)
  {
    && AtCeiling(bout, Doubles(exchanges), config) && config.ceilingOutcome == ResultStands
    && PointCapEndsBout(bout, ScoreOf(bout, exchanges, Up(config), mode), Up(config), Edition2026October)
  }

  /**
   * Under the October edition a bout that counts down ends exactly as the same bout counting up:
   * over or not, winner and reason. They part only where the ceiling lets the result stand and the
   * cap would have ended the bout as well, and there they always part.
   */
  lemma {:induction false} CountdownEndsAsCountup(bout: Bout, exchanges: seq<Exchange>, config: Config, mode: AfterblowMode)
    requires config.pointCap > 0
    ensures BoutOutcome(bout, exchanges, Down(config), mode, Edition2026October)
            == BoutOutcome(bout, exchanges, Up(config), mode, Edition2026October)
            <==> !CapAndStandingCeiling(bout, exchanges, config, mode)
  {
    if !Wiped(bout, exchanges, config) {
      BelowZeroKeepsTheCount(bout, exchanges, config, mode);
    }
  }

  /** Both fighters reached the cap, and one is ahead. */
  predicate BothOutAndOneAhead(exchanges: seq<Exchange>, config: Config, mode: AfterblowMode)
  {
    && Earned(exchanges, mode, Red) >= config.pointCap && Earned(exchanges, mode, Blue) >= config.pointCap
    && Earned(exchanges, mode, Red) != Earned(exchanges, mode, Blue)
  }

  /**
   * Under the April edition the two directions part exactly where the October ruling moved something:
   * a wiped board read as a drawn cap, or both fighters out of points with one less far below.
   */
  lemma {:induction false} WhatTheOctoberEditionMoved(bout: Bout, exchanges: seq<Exchange>, config: Config, mode: AfterblowMode)
    requires config.pointCap > 0
    ensures BoutOutcome(bout, exchanges, Down(config), mode, Edition2026April)
            == BoutOutcome(bout, exchanges, Up(config), mode, Edition2026April)
            <==> !(if Wiped(bout, exchanges, config) then ChainAllowsLevelEnd(config, bout)
                   else BothOutAndOneAhead(exchanges, config, mode))
  {
    assert ForPhase(Up(config).levelAtTime, bout) == ForPhase(config.levelAtTime, bout);
    if !Wiped(bout, exchanges, config) {
      BelowZeroKeepsTheCount(bout, exchanges, config, mode);
    }
  }

  /** A bout that counts up is decided the same way by both editions. */
  lemma {:induction false} CountupHasOneEdition(bout: Bout, score: Score, config: Config)
    requires config.direction == CountUp
    ensures RoundOutcome(bout, score, config, Edition2026April) == RoundOutcome(bout, score, config, Edition2026October)
  {
    assert PointCapEndsBout(bout, score, config, Edition2026April) == PointCapEndsBout(bout, score, config, Edition2026October);
  }

  /**
   * Away from the ceiling, in either direction: the bout is over exactly when someone earned the cap
   * and someone leads (or the phase may end level), and the winner is whoever earned more.
   */
  lemma {:induction false} WinnerEarnedMore(bout: Bout, exchanges: seq<Exchange>, config: Config, mode: AfterblowMode)
    requires config.pointCap > 0 && !AtCeiling(bout, Doubles(exchanges), config)
    ensures
      var red, blue := Earned(exchanges, mode, Red), Earned(exchanges, mode, Blue);
      var outcome := BoutOutcome(bout, exchanges, config, mode, Edition2026October);
      && (outcome.autoOver <==> Max(red, blue) >= config.pointCap && (red != blue || ChainAllowsLevelEnd(config, bout)))
      && outcome.winner == (if outcome.autoOver then LeadingColor(red, blue) else None)
      && outcome.endReason == (if outcome.autoOver then Some(FirstToPoints) else None)
  {
    var chain := ChainAllowsLevelEnd(config, bout);
    if config.direction == CountDown {
      assert Down(config) == config;
      BelowZeroKeepsTheCount(bout, exchanges, config, mode);
    }
  }

  /**
   * At the doubles ceiling the bout is over, in either direction: a wiped board shows 0-0 and nobody
   * wins it; where the result stands, whoever earned more does, save in a bout that counts down with
   * both fighters out of points, whose board is level. Only a bout that counts up and had reached
   * the cap is recorded as won on points.
   */
  lemma {:induction false} CeilingEndsTheBout(bout: Bout, exchanges: seq<Exchange>, config: Config, mode: AfterblowMode)
    requires config.pointCap > 0 && AtCeiling(bout, Doubles(exchanges), config)
    ensures
      var red, blue := Earned(exchanges, mode, Red), Earned(exchanges, mode, Blue);
      var score, outcome := ScoreOf(bout, exchanges, config, mode), BoutOutcome(bout, exchanges, config, mode, Edition2026October);
      var onPoints := config.direction == CountUp && CapAndStandingCeiling(bout, exchanges, config, mode);
      && outcome.autoOver
      && (CeilingZeroesScores(config) ==> outcome.winner.None? && score.red == 0 && score.blue == 0)
      && (!CeilingZeroesScores(config) ==>
            outcome.winner == if config.direction == CountDown && BothOutAndOneAhead(exchanges, config, mode) then None
                              else LeadingColor(red, blue))
      && outcome.endReason == Some(if onPoints then FirstToPoints else CeilingReason(config))
  {
    if config.direction == CountDown {
      assert Down(config) == config;
    } else {
      assert Up(config) == config;
    }
    if !Wiped(bout, exchanges, config) {
      BelowZeroKeepsTheCount(bout, exchanges, config, mode);
    }
  }

  // ---- best-of series ----

  /** ⌈N/2⌉, and 1 for a single round. */
  function RoundWinTarget(bestOf: int): int
  {
    (Max(1, bestOf) + 1) / 2
  }

  function WinsOf(winners: seq<Option<Color>>, color: Color): nat
  {
    if winners == [] then 0
    else WinsOf(winners[..|winners| - 1], color) + if winners[|winners| - 1] == Some(color) then 1 else 0
  }

  datatype SeriesResult = SeriesResult(over: bool, winner: Option<Color>, roundsSpent: bool)

  /** `seriesResult` over the winners of the closed rounds. */
  function SeriesOf(winners: seq<Option<Color>>, bestOf: int): SeriesResult
  {
    var red, blue, target := WinsOf(winners, Red), WinsOf(winners, Blue), RoundWinTarget(bestOf);
    var clinched := red >= target || blue >= target;
    var roundsSpent := !clinched && |winners| >= Max(1, bestOf);
    SeriesResult(clinched || roundsSpent, LeadingColor(red, blue), roundsSpent)
  }

  /** A round opens only while the series is not over. */
  predicate RoundsOpenedInPlay(winners: seq<Option<Color>>, bestOf: int)
  {
    forall k :: 0 <= k < |winners| ==> !SeriesOf(winners[..k], bestOf).over
  }

  lemma {:induction false} WinsAreOfRounds(winners: seq<Option<Color>>)
    ensures WinsOf(winners, Red) + WinsOf(winners, Blue) <= |winners|
    ensures (forall k :: 0 <= k < |winners| ==> winners[k].Some?) ==> WinsOf(winners, Red) + WinsOf(winners, Blue) == |winners|
  {
    if winners != [] {
      var rest, last := winners[..|winners| - 1], winners[|winners| - 1];
      WinsAreOfRounds(rest);
      assert forall k :: 0 <= k < |rest| ==> rest[k] == winners[k];
      match last {
        case None =>
        case Some(Red) =>
        case Some(Blue) =>
      }
    }
  }

  /** No series runs past its rounds, and a spent one is over: draws or not, odd or even. */
  lemma {:induction false} SeriesIsBounded(winners: seq<Option<Color>>, bestOf: int)
    requires RoundsOpenedInPlay(winners, bestOf)
    ensures |winners| <= Max(1, bestOf)
    ensures |winners| == Max(1, bestOf) ==> SeriesOf(winners, bestOf).over
    ensures WinsOf(winners, Red) <= RoundWinTarget(bestOf) && WinsOf(winners, Blue) <= RoundWinTarget(bestOf)
    ensures SeriesOf(winners, bestOf).over && !SeriesOf(winners, bestOf).roundsSpent ==>
              (WinsOf(winners, Red) == RoundWinTarget(bestOf)) != (WinsOf(winners, Blue) == RoundWinTarget(bestOf))
  {
    if winners != [] {
      assert !SeriesOf(winners[..|winners| - 1], bestOf).over;
    }
  }

  /** A round that closes itself, where no round may end level, has a winner: under either edition, on any score. */
  lemma {:induction false} ClosedRoundHasWinner(bout: Bout, score: Score, config: Config, edition: Edition)
    requires !IsGroupStage(bout) && !ChainAllowsLevelEnd(config, bout)
    ensures RoundOutcome(bout, score, config, edition).autoOver ==> RoundOutcome(bout, score, config, edition).winner.Some?
  {
  }

  /** The winners of rounds that closed themselves on these scores. */
  function RoundWinners(bout: Bout, scores: seq<Score>, config: Config, edition: Edition): (winners: seq<Option<Color>>)
    ensures |winners| == |scores|
    ensures forall k :: 0 <= k < |scores| ==> winners[k] == RoundOutcome(bout, scores[k], config, edition).winner
  {
    seq(|scores|, k requires 0 <= k < |scores| => RoundOutcome(bout, scores[k], config, edition).winner)
  }

  /**
   * A best-of series outside the group stages, in a phase that cannot end level: it never runs past N
   * rounds, and it ends clinched, after ⌈N/2⌉ to N rounds, with exactly one side at the target and
   * that side the winner.
   */
  lemma {:induction false} SeriesEndsClinched(bout: Bout, scores: seq<Score>, config: Config, edition: Edition)
    requires !IsGroupStage(bout) && !ChainAllowsLevelEnd(config, bout)
    requires ForPhase(config.bestOf, bout) >= 1 && ForPhase(config.bestOf, bout) % 2 == 1
    requires forall k :: 0 <= k < |scores| ==> RoundOutcome(bout, scores[k], config, edition).autoOver
    requires RoundsOpenedInPlay(RoundWinners(bout, scores, config, edition), ForPhase(config.bestOf, bout))
    ensures
      var bestOf := ForPhase(config.bestOf, bout);
      var winners := RoundWinners(bout, scores, config, edition);
      var target, series := RoundWinTarget(bestOf), SeriesOf(winners, bestOf);
      && |scores| <= bestOf
      && !series.roundsSpent
      && (|scores| == bestOf ==> series.over)
      && (series.over ==>
            && target <= |scores| <= bestOf
            && (WinsOf(winners, Red) == target) != (WinsOf(winners, Blue) == target)
            && series.winner == Some(if WinsOf(winners, Red) == target then Red else Blue))
  {
    var bestOf := ForPhase(config.bestOf, bout);
    var winners := RoundWinners(bout, scores, config, edition);
    forall k | 0 <= k < |winners|
      ensures winners[k].Some?
    {
      ClosedRoundHasWinner(bout, scores[k], config, edition);
    }
    WinsAreOfRounds(winners);
    SeriesIsBounded(winners, bestOf);
  }
}
