// Several ticks and organisers' edits, interleaved in any order
// (apps/api/src/workers/event-status-ticker.worker.ts).
module StatusTickerRuns {
  import opened Options
  import opened StatusTicker

  /** What happened to the table, in order: a move that landed on a row, or an organiser's edit. */
  datatype Happening =
    | Landed(tick: nat, id: string, was: Row, target: Status)
    | Edited(id: string)

  /** A tick at work: its `now`, the candidates it has not come to, and the ids it moved. */
  datatype TickState = TickState(now: int, pending: seq<Candidate>, running: seq<string>, completed: seq<string>)

  datatype World = World(rows: map<string, Row>, ticks: map<nat, TickState>, history: seq<Happening>)

  /** One atomic step: an edit or removal, a tick's read, a tick's next write, or a write that failed. */
  datatype Step =
    | Edit(id: string, row: Option<Row>)
    | Read(tick: nat, now: int, ids: seq<string>)
    | WriteNext(tick: nat)
    | WriteFails(tick: nat)

  /** The read of these rows, in whatever order they come. */
  function ReadRows(rows: map<string, Row>, ids: seq<string>, now: int): seq<Candidate>
  {
    if ids == [] then []
    else
      var earlier, id := ReadRows(rows, ids[..|ids| - 1], now), ids[|ids| - 1];
      if id in rows && IsRead(rows[id], now) then earlier + [CandidateOf(id, rows[id])] else earlier
  }

  function Counted(t: TickState, id: string, target: Status): TickState
    requires t.pending != []
  {
    if target == Running then t.(pending := t.pending[1..], running := t.running + [id])
    else t.(pending := t.pending[1..], completed := t.completed + [id])
  }

  /** `writeOne`: the compare and the set in one step of the table. */
  function Written(w: World, tick: nat, c: Candidate, target: Status): World
    requires tick in w.ticks && |w.ticks[tick].pending| > 0
  {
    var t := w.ticks[tick];
    if c.id in w.rows && Holds(w.rows[c.id], c) then
      World(w.rows[c.id := Moved(w.rows[c.id], target, t.now)], w.ticks[tick := Counted(t, c.id, target)],
            w.history + [Landed(tick, c.id, w.rows[c.id], target)])
    else w.(ticks := w.ticks[tick := t.(pending := t.pending[1..])])
  }

  function Apply(zones: Zones, w: World, step: Step): World
  {
    match step
    case Edit(id, row) =>
      World(if row.Some? then w.rows[id := row.value] else w.rows - {id}, w.ticks, w.history + [Edited(id)])
    case Read(tick, now, ids) =>
      if tick in w.ticks then w else w.(ticks := w.ticks[tick := TickState(now, ReadRows(w.rows, ids, now), [], [])])
    case WriteNext(tick) =>
      if tick !in w.ticks || w.ticks[tick].pending == [] then w
      else
        var t := w.ticks[tick];
        var target := Decide(zones, t.pending[0], t.now).target;
        if target.None? then w.(ticks := w.ticks[tick := t.(pending := t.pending[1..])])
        else Written(w, tick, t.pending[0], target.value)
    case WriteFails(tick) =>
      if tick !in w.ticks || w.ticks[tick].pending == [] then w
      else w.(ticks := w.ticks[tick := w.ticks[tick].(pending := w.ticks[tick].pending[1..])])
  }

  function Run(zones: Zones, start: World, steps: seq<Step>): World
  {
    if steps == [] then start else Apply(zones, Run(zones, start, steps[..|steps| - 1]), steps[|steps| - 1])
  }

  predicate IsFresh(w: World)
  {
    w.ticks == map[] && w.history == []
  }

  // ---- what every step keeps ----

  /** The ids a tick moved to a status, as the history has them. */
  function MovesOf(history: seq<Happening>, tick: nat, status: Status): seq<string>
  {
    if history == [] then []
    else
      var earlier, last := MovesOf(history[..|history| - 1], tick, status), history[|history| - 1];
      if last.Landed? && last.tick == tick && last.target == status then earlier + [last.id] else earlier
  }

  ghost predicate PendingAreTicked(w: World)
  {
    forall tick, c :: tick in w.ticks && c in w.ticks[tick].pending ==> IsTicked(c.status)
  }

  /** Every move that landed is the decision of its tick on the row as it stood when it was written. */
  ghost predicate MovesAreDecided(zones: Zones, w: World)
  {
    forall i :: 0 <= i < |w.history| && w.history[i].Landed? ==>
      && w.history[i].tick in w.ticks
      && Target(zones, w.history[i].was, w.ticks[w.history[i].tick].now) == Some(w.history[i].target)
  }

  /** Every tick counts exactly the moves it landed. */
  ghost predicate MovesAreCounted(w: World)
  {
    && (forall tick :: tick in w.ticks ==>
          w.ticks[tick].running == MovesOf(w.history, tick, Running) && w.ticks[tick].completed == MovesOf(w.history, tick, Completed))
    && (forall i :: 0 <= i < |w.history| && w.history[i].Landed? ==> w.history[i].tick in w.ticks)
  }

  function Rank(status: Status): nat
  {
    match status
    case Draft => 0
    case Published => 1
    case Running => 2
    case Completed => 3
    case Archived => 4
  }

  ghost predicate EditedSince(history: seq<Happening>, i: nat, id: string)
  {
    exists k :: i < k < |history| && history[k] == Edited(id)
  }

  /** A row nobody edited since it moved is still where it moved to, or further. */
  ghost predicate MovesLast(w: World)
  {
    forall i :: 0 <= i < |w.history| && w.history[i].Landed? && !EditedSince(w.history, i, w.history[i].id) ==>
      w.history[i].id in w.rows && Rank(w.rows[w.history[i].id].status) >= Rank(w.history[i].target)
  }

  predicate SameMove(a: Happening, b: Happening)
  {
    a.Landed? && b.Landed? && a.id == b.id && a.target == b.target
  }

  /** Between two moves of one row to one status someone edited that row. */
  ghost predicate NoMoveTwice(history: seq<Happening>)
  {
    forall i, j :: 0 <= i < j < |history| && SameMove(history[i], history[j]) ==> EditedSince(history[..j], i, history[i].id)
  }

  ghost predicate Inv(zones: Zones, w: World)
  {
    PendingAreTicked(w) && MovesAreDecided(zones, w) && MovesAreCounted(w) && MovesLast(w) && NoMoveTwice(w.history)
  }

  lemma {:induction false} ReadRowsAreTicked(rows: map<string, Row>, ids: seq<string>, now: int)
    ensures forall c :: c in ReadRows(rows, ids, now) ==> IsTicked(c.status)
  {
    if ids != [] {
      ReadRowsAreTicked(rows, ids[..|ids| - 1], now);
    }
  }

  lemma {:induction false} NewTickHasNoMoves(history: seq<Happening>, tick: nat, status: Status)
    requires forall i :: 0 <= i < |history| && history[i].Landed? ==> history[i].tick != tick
    ensures MovesOf(history, tick, status) == []
  {
    if history != [] {
      NewTickHasNoMoves(history[..|history| - 1], tick, status);
    }
  }

  lemma {:induction false} EditedSinceGrows(history: seq<Happening>, more: Happening, i: nat, id: string)
    ensures EditedSince(history + [more], i, id) <==> EditedSince(history, i, id) || (i < |history| && more == Edited(id))
  {
    var longer := history + [more];
    if EditedSince(history, i, id) {
      var k :| i < k < |history| && history[k] == Edited(id);
      assert longer[k] == Edited(id);
    }
    assert longer[|history|] == more;
  }

  /** Adding to the history keeps what it says, when a new move is new. */
  lemma {:induction false} NoMoveTwiceGrows(history: seq<Happening>, more: Happening)
    requires NoMoveTwice(history)
    requires forall i :: 0 <= i < |history| && SameMove(history[i], more) ==> EditedSince(history, i, more.id)
    ensures NoMoveTwice(history + [more])
  {
    var longer := history + [more];
    forall i, j | 0 <= i < j < |longer| && SameMove(longer[i], longer[j])
      ensures EditedSince(longer[..j], i, longer[i].id)
    {
      if j < |history| {
        assert longer[..j] == history[..j];
      } else {
        assert longer[..j] == history;
      }
    }
  }

  lemma {:induction false} EditKeeps(zones: Zones, w: World, id: string, row: Option<Row>)
    requires Inv(zones, w)
    ensures Inv(zones, Apply(zones, w, Edit(id, row)))
  {
    var after := Apply(zones, w, Edit(id, row));
    NoMoveTwiceGrows(w.history, Edited(id));
    assert after.history[..|after.history| - 1] == w.history;
    forall i | 0 <= i < |after.history| && after.history[i].Landed? && !EditedSince(after.history, i, after.history[i].id)
      ensures after.history[i].id in after.rows && Rank(after.rows[after.history[i].id].status) >= Rank(after.history[i].target)
    {
      EditedSinceGrows(w.history, Edited(id), i, after.history[i].id);
      assert w.history[i] == after.history[i];
    }
  }

  lemma {:induction false} ReadKeeps(zones: Zones, w: World, tick: nat, now: int, ids: seq<string>)
    requires Inv(zones, w)
    ensures Inv(zones, Apply(zones, w, Read(tick, now, ids)))
  {
    ReadRowsAreTicked(w.rows, ids, now);
    if tick !in w.ticks {
      NewTickHasNoMoves(w.history, tick, Running);
      NewTickHasNoMoves(w.history, tick, Completed);
    }
  }

  lemma {:induction false} WriteKeepsMoves(zones: Zones, w: World, tick: nat, c: Candidate, target: Status)
    requires Inv(zones, w) && tick in w.ticks && w.ticks[tick].pending != [] && c.id in w.rows && Holds(w.rows[c.id], c)
    requires Target(zones, w.rows[c.id], w.ticks[tick].now) == Some(target)
    ensures MovesLast(Written(w, tick, c, target)) && NoMoveTwice(Written(w, tick, c, target).history)
  {
    var after, landed := Written(w, tick, c, target), Landed(tick, c.id, w.rows[c.id], target);
    NoMoveTwiceGrows(w.history, landed);
    forall i | 0 <= i < |after.history| && after.history[i].Landed? && !EditedSince(after.history, i, after.history[i].id)
      ensures after.history[i].id in after.rows && Rank(after.rows[after.history[i].id].status) >= Rank(after.history[i].target)
    {
      EditedSinceGrows(w.history, landed, i, after.history[i].id);
      if i < |w.history| {
        assert w.history[i] == after.history[i];
      }
    }
  }

  lemma {:induction false} WriteKeepsCounts(w: World, tick: nat, c: Candidate, target: Status)
    requires MovesAreCounted(w) && tick in w.ticks && w.ticks[tick].pending != [] && c.id in w.rows && Holds(w.rows[c.id], c)
    requires target == Running || target == Completed
    ensures MovesAreCounted(Written(w, tick, c, target))
  {
    var after := Written(w, tick, c, target);
    assert after.history[..|after.history| - 1] == w.history;
    forall t | t in after.ticks
      ensures after.ticks[t].running == MovesOf(after.history, t, Running)
      ensures after.ticks[t].completed == MovesOf(after.history, t, Completed)
    {
    }
  }

  lemma {:induction false} WriteKeepsDecisions(zones: Zones, w: World, tick: nat, c: Candidate, target: Status)
    requires MovesAreDecided(zones, w) && PendingAreTicked(w)
    requires tick in w.ticks && w.ticks[tick].pending != [] && c.id in w.rows && Holds(w.rows[c.id], c)
    requires Target(zones, w.rows[c.id], w.ticks[tick].now) == Some(target)
    ensures MovesAreDecided(zones, Written(w, tick, c, target)) && PendingAreTicked(Written(w, tick, c, target))
  {
    var after := Written(w, tick, c, target);
    forall i | 0 <= i < |after.history| && after.history[i].Landed?
      ensures after.history[i].tick in after.ticks
      ensures Target(zones, after.history[i].was, after.ticks[after.history[i].tick].now) == Some(after.history[i].target)
    {
      assert i < |w.history| ==> after.history[i] == w.history[i];
    }
  }

  lemma {:induction false} WriteKeeps(zones: Zones, w: World, tick: nat)
    requires Inv(zones, w)
    ensures Inv(zones, Apply(zones, w, WriteNext(tick)))
  {
    if tick in w.ticks && w.ticks[tick].pending != [] {
      var t := w.ticks[tick];
      var c, target := t.pending[0], Decide(zones, t.pending[0], t.now).target;
      if target.Some? && c.id in w.rows && Holds(w.rows[c.id], c) {
        assert c in t.pending;
        DecisionIsTarget(zones, c.id, w.rows[c.id], t.now);
        WriteKeepsMoves(zones, w, tick, c, target.value);
        WriteKeepsCounts(w, tick, c, target.value);
        WriteKeepsDecisions(zones, w, tick, c, target.value);
      }
    }
  }

  /**
   * Over every interleaving of ticks and edits: each move that landed is its tick's decision on the
   * row as it stood then, each is counted by its own tick and no other, and no row moves twice to a
   * status without an organiser's edit in between.
   */
  lemma {:induction false} EveryRunKeeps(zones: Zones, start: World, steps: seq<Step>)
    requires IsFresh(start)
    ensures Inv(zones, Run(zones, start, steps))
  {
    if steps != [] {
      EveryRunKeeps(zones, start, steps[..|steps| - 1]);
      var w := Run(zones, start, steps[..|steps| - 1]);
      match steps[|steps| - 1] {
        case Edit(id, row) => EditKeeps(zones, w, id, row);
        case Read(tick, now, ids) => ReadKeeps(zones, w, tick, now, ids);
        case WriteNext(tick) => WriteKeeps(zones, w, tick);
        case WriteFails(tick) =>
          if tick in w.ticks && w.ticks[tick].pending != [] {
          }
      }
    }
  }
}
