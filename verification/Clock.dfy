// The match clock: a list of presses and the state they add up to (packages/rules/src/clock.ts).
module Clock {
  import opened Numbers
  import opened Options

  datatype Status = Idle | Running | Halted | Ended

  datatype MoveType = Start | Halt | Resume | End | Reopen | ResetClock | AdjustTime | ResetMatch | LevelResolution

  /** A row of the clock; its time is in milliseconds. */
  datatype Move = Move(kind: MoveType, at: int, adjustmentMs: Option<int>)

  datatype Clock = Clock(status: Status, activeMs: int, runningFrom: Option<int>, startedAt: Option<int>)

  const IDLE_CLOCK := Clock(Idle, 0, None, None)

  /** The time a clock has run once the interval that still runs is closed at `at`. */
  function ActiveAt(clock: Clock, at: int): int
  {
    if clock.runningFrom.None? then clock.activeMs else clock.activeMs + (at - clock.runningFrom.value)
  }

  function ClockStep(clock: Clock, move: Move): Clock
  {
    match move.kind
    case Start =>
      clock.(status := Running, runningFrom := Some(move.at), startedAt := if clock.startedAt.Some? then clock.startedAt else Some(move.at))
    case Halt => clock.(status := Halted, activeMs := ActiveAt(clock, move.at), runningFrom := None)
    case Resume => clock.(status := Running, runningFrom := Some(move.at))
    case End => clock.(status := Ended, activeMs := ActiveAt(clock, move.at), runningFrom := None)
    case Reopen => clock.(status := Halted, runningFrom := None)
    case ResetClock => clock.(status := Halted, activeMs := 0, runningFrom := None)
    case AdjustTime => clock.(activeMs := Max(0, clock.activeMs + OrZero(move.adjustmentMs)))
    case LevelResolution => clock.(activeMs := Max(0, clock.activeMs + OrZero(move.adjustmentMs)))
    case ResetMatch => IDLE_CLOCK
  }

  function FoldClock(moves: seq<Move>): Clock
  {
    if moves == [] then IDLE_CLOCK else ClockStep(FoldClock(moves[..|moves| - 1]), moves[|moves| - 1])
  }

  /** What a person may press from each state of the clock. */
  function ActionsFrom(status: Status): set<MoveType>
  {
    match status
    case Idle => {Start}
    case Running => {Halt, End}
    case Halted => {Resume, End, ResetClock}
    case Ended => {Reopen}
  }

  /** The presses a pad may make with no network. */
  datatype Press = Press(kind: MoveType, at: int)

  predicate PressAlreadyTrue(kind: MoveType, status: Status)
  {
    match kind
    case Start => status == Running || status == Halted
    case Halt => status == Halted || status == Ended
    case Resume => status == Running
    case End => status == Ended
    case _ => false
  }

  function RowOf(press: Press): Move
  {
    Move(press.kind, press.at, None)
  }

  function ClockAfterPress(clock: Clock, press: Press): Clock
  {
    if PressAlreadyTrue(press.kind, clock.status) then clock
    else if press.kind !in ActionsFrom(clock.status) then clock
    else ClockStep(clock, RowOf(press))
  }

  // ---- the pad's queue and the server's rows ----

  /** The pad's clock: the queued presses over a clock it was given. */
  function FoldPresses(clock: Clock, presses: seq<Press>): Clock
    decreases |presses|
  {
    if presses == [] then clock else FoldPresses(ClockAfterPress(clock, presses[0]), presses[1..])
  }

  /** The server writes a press when its own clock allows it and does not already show it. */
  predicate ServerWrites(rows: seq<Move>, press: Press)
  {
    var status := FoldClock(rows).status;
    press.kind in ActionsFrom(status) && !PressAlreadyTrue(press.kind, status)
  }

  /** The rows the server adds when the queued presses reach it, one after another. */
  function Written(rows: seq<Move>, presses: seq<Press>): seq<Move>
    decreases |presses|
  {
    if presses == [] then []
    else if ServerWrites(rows, presses[0]) then
      [RowOf(presses[0])] + Written(rows + [RowOf(presses[0])], presses[1..])
    else Written(rows, presses[1..])
  }

  /** The clock the pad shows offline is the clock the server shows once it has taken the queue. */
  lemma {:induction false} PadShowsWhatTheServerWill(rows: seq<Move>, presses: seq<Press>)
    ensures FoldPresses(FoldClock(rows), presses) == FoldClock(rows + Written(rows, presses))
    decreases |presses|
  {
    if presses == [] {
      assert rows + [] == rows;
    } else {
      var row := RowOf(presses[0]);
      if ServerWrites(rows, presses[0]) {
        var more := rows + [row];
        assert more[..|more| - 1] == rows;
        PadShowsWhatTheServerWill(more, presses[1..]);
        assert more + Written(more, presses[1..]) == rows + Written(rows, presses);
      } else {
        PadShowsWhatTheServerWill(rows, presses[1..]);
      }
    }
  }

  lemma {:induction false} PressTwiceIsOnce(clock: Clock, kind: MoveType, at: int, again: int)
    requires kind in {Start, Halt, Resume, End}
    ensures ClockAfterPress(ClockAfterPress(clock, Press(kind, at)), Press(kind, again)) == ClockAfterPress(clock, Press(kind, at))
  {
  }

  /** Pressing the same thing again, anywhere in the queue and whenever, changes nothing. */
  lemma {:induction false} RepeatedPressChangesNothing(clock: Clock, before: seq<Press>, kind: MoveType, at: int, again: int,
                                                       behind: seq<Press>)
    requires kind in {Start, Halt, Resume, End}
    ensures FoldPresses(clock, before + [Press(kind, at), Press(kind, again)] + behind)
            == FoldPresses(clock, before + [Press(kind, at)] + behind)
    decreases |before|
  {
    var twice, once := [Press(kind, at), Press(kind, again)], [Press(kind, at)];
    if before == [] {
      PressTwiceIsOnce(clock, kind, at, again);
      assert (before + twice + behind)[1..] == [Press(kind, again)] + behind;
      assert ([Press(kind, again)] + behind)[1..] == behind;
      assert (before + once + behind)[1..] == behind;
    } else {
      RepeatedPressChangesNothing(ClockAfterPress(clock, before[0]), before[1..], kind, at, again, behind);
      assert (before + twice + behind)[1..] == before[1..] + twice + behind;
      assert (before + once + behind)[1..] == before[1..] + once + behind;
    }
  }

  // ---- elapsed time is time spent running ----

  predicate IsCorrection(kind: MoveType)
  {
    kind == AdjustTime || kind == LevelResolution
  }

  predicate IsReset(kind: MoveType)
  {
    kind == ResetClock || kind == ResetMatch
  }

  /** Every row was allowed where it was written, times do not run back, and no row corrects the time. */
  predicate LegalRun(moves: seq<Move>)
  {
    moves == [] ||
    (var rest, move := moves[..|moves| - 1], moves[|moves| - 1];
     && LegalRun(rest)
     && !IsCorrection(move.kind)
     && (move.kind == ResetMatch || move.kind in ActionsFrom(FoldClock(rest).status))
     && (rest != [] ==> rest[|rest| - 1].at <= move.at))
  }

  /** The rows written up to an instant, of rows in order of time. */
  function UpTo(moves: seq<Move>, instant: int): seq<Move>
  {
    if moves == [] || moves[|moves| - 1].at <= instant then moves else UpTo(moves[..|moves| - 1], instant)
  }

  predicate RunsAt(moves: seq<Move>, instant: int)
  {
    FoldClock(UpTo(moves, instant)).status == Running
  }

  /** How many milliseconds of an interval the clock runs in, asked instant by instant. */
  function RunningMs(moves: seq<Move>, from: int, to: int): nat
    decreases Max(0, to - from)
  {
    if to <= from then 0 else RunningMs(moves, from, to - 1) + if RunsAt(moves, to - 1) then 1 else 0
  }

  /** The time of the last reset, or `origin` when there was none. */
  function LastReset(moves: seq<Move>, origin: int): int
  {
    if moves == [] then origin
    else if IsReset(moves[|moves| - 1].kind) then moves[|moves| - 1].at
    else LastReset(moves[..|moves| - 1], origin)
  }

  lemma {:induction false} RunningMsSplits(moves: seq<Move>, from: int, mid: int, to: int)
    requires from <= mid <= to
    ensures RunningMs(moves, from, to) == RunningMs(moves, from, mid) + RunningMs(moves, mid, to)
    decreases Max(0, to - mid)
  {
    if mid < to {
      RunningMsSplits(moves, from, mid, to - 1);
    }
  }

  /** Before the last row the clock ran as the earlier rows say. */
  lemma {:induction false} EarlierRowsDecideEarlier(moves: seq<Move>, from: int, to: int)
    requires moves != [] && to <= moves[|moves| - 1].at
    ensures RunningMs(moves, from, to) == RunningMs(moves[..|moves| - 1], from, to)
    decreases Max(0, to - from)
  {
    if from < to {
      EarlierRowsDecideEarlier(moves, from, to - 1);
    }
  }

  /** From the last row on the clock keeps the state that row left. */
  lemma {:induction false} LastRowDecidesLater(moves: seq<Move>, from: int, to: int)
    requires from <= to && (moves == [] || moves[|moves| - 1].at <= from)
    ensures RunningMs(moves, from, to) == (if FoldClock(moves).status == Running then to - from else 0)
    decreases Max(0, to - from)
  {
    if from < to {
      LastRowDecidesLater(moves, from, to - 1);
    }
  }

  lemma {:induction false} ResetIsWithinTheRun(moves: seq<Move>, origin: int)
    requires LegalRun(moves) && (moves != [] ==> origin <= moves[0].at)
    ensures moves != [] ==> LastReset(moves, origin) <= moves[|moves| - 1].at
    ensures moves == [] ==> LastReset(moves, origin) == origin
  {
    if moves != [] {
      ResetIsWithinTheRun(moves[..|moves| - 1], origin);
    }
  }

  /**
   * On every legal run without corrections the elapsed time is the number of milliseconds since the
   * last reset at which the clock was running.
   */
  lemma {:induction false} ElapsedIsTimeSpentRunning(moves: seq<Move>, origin: int, now: int)
    requires LegalRun(moves)
    requires if moves == [] then origin <= now else origin <= moves[0].at && moves[|moves| - 1].at <= now
    ensures ActiveAt(FoldClock(moves), now) == RunningMs(moves, LastReset(moves, origin), now)
    decreases |moves|
  {
    if moves == [] {
      LastRowDecidesLater(moves, origin, now);
    } else {
      var rest, move := moves[..|moves| - 1], moves[|moves| - 1];
      ResetIsWithinTheRun(moves, origin);
      LastRowDecidesLater(moves, move.at, now);
      if !IsReset(move.kind) {
        var from := LastReset(rest, origin);
        ElapsedIsTimeSpentRunning(rest, origin, move.at);
        RunningMsSplits(moves, from, move.at, now);
        EarlierRowsDecideEarlier(moves, from, move.at);
      }
    }
  }

  // ---- extra time ----

  /** `extraTimeAdjustmentMs`. */
  function ExtraTimeAdjustmentMs(seconds: nat, elapsedMs: int, limitMs: Option<int>): int
  {
    if limitMs.None? then 0 else limitMs.value - seconds * 1000 - elapsedMs
  }

  /** What a countdown shows of a clock that does not run (`displayClockMs`, packages/rules/src/match-format.ts). */
  function ShownMs(clock: Clock, limitMs: int): int
  {
    Max(0, limitMs - clock.activeMs)
  }

  /**
   * A step of extra time puts exactly its seconds back on the clock, however far the bout had run,
   * when they are no more than the phase's own limit, and only then; else the whole limit.
   */
  lemma {:induction false} ExtraTimeShowsItsSeconds(clock: Clock, seconds: nat, limitMs: nat, at: int)
    ensures
      var step := Move(LevelResolution, at, Some(ExtraTimeAdjustmentMs(seconds, clock.activeMs, Some(limitMs))));
      && (ShownMs(ClockStep(clock, step), limitMs) == seconds * 1000 <==> seconds * 1000 <= limitMs)
      && (seconds * 1000 > limitMs ==> ShownMs(ClockStep(clock, step), limitMs) == limitMs)
  {
  }
}
