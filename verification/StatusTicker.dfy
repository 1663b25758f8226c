// The hourly worker that moves Events along (apps/api/src/workers/event-status-ticker.worker.ts), on
// each Event's own clock (apps/api/src/common/event-open-window.ts).
module StatusTicker {
  import opened Options

  datatype Status = Draft | Published | Running | Completed | Archived

  /** A date is a day number; none is one that cannot be read. */
  datatype Row = Row(status: Status, startDate: Option<int>, endDate: Option<int>, timezone: string, updatedAt: int)

  /** What the worker read of a row. */
  datatype Candidate = Candidate(id: string, status: Status, startDate: Option<int>, endDate: Option<int>, timezone: string)

  /** When a day's hour strikes in a zone (an unknown one read as the default), and which zones are known. */
  datatype Zones = Zones(instantOf: (string, int, int) -> int, known: string -> bool)

  const HOUR_MS := 3_600_000
  const DAY_MS := 86_400_000
  const CLOSING_HOUR := 6

  datatype OpenWindow = OpenWindow(opensAt: int, closesAt: int, unknownZone: bool)

  /** From midnight of the first day to 06:00 on the morning after the last. */
  function EventOpenWindow(zones: Zones, startDate: Option<int>, endDate: Option<int>, timezone: string): Option<OpenWindow>
  {
    if startDate.None? || endDate.None? then None
    else Some(OpenWindow(zones.instantOf(timezone, startDate.value, 0), zones.instantOf(timezone, endDate.value + 1, CLOSING_HOUR),
                         !zones.known(timezone)))
  }

  datatype Problem = NoWindow | UnknownZone

  datatype Decision = Decision(target: Option<Status>, problem: Option<Problem>)

  function Decide(zones: Zones, row: Candidate, now: int): Decision
  {
    match EventOpenWindow(zones, row.startDate, row.endDate, row.timezone)
    case None => Decision(None, Some(NoWindow))
    case Some(window) =>
      var problem := if window.unknownZone then Some(UnknownZone) else None;
      if now >= window.closesAt then Decision(Some(Completed), problem)
      else if row.status == Published && now >= window.opensAt then Decision(Some(Running), problem)
      else Decision(None, problem)
  }

  function CandidateOf(id: string, row: Row): Candidate
  {
    Candidate(id, row.status, row.startDate, row.endDate, row.timezone)
  }

  /** The row still holds what was read: its status, dates and zone. */
  predicate Holds(row: Row, c: Candidate)
  {
    row.status == c.status && row.startDate == c.startDate && row.endDate == c.endDate && row.timezone == c.timezone
  }

  function Moved(row: Row, target: Status, now: int): Row
  {
    row.(status := target, updatedAt := now)
  }

  predicate IsTicked(status: Status)
  {
    status == Published || status == Running
  }

  function UtcDay(now: int): int
  {
    now / DAY_MS
  }

  /** What the read asks for: published or running, and starting no later than tomorrow. */
  predicate IsRead(row: Row, now: int)
  {
    IsTicked(row.status) && row.startDate.Some? && row.startDate.value <= UtcDay(now) + 1
  }

  /** Where a row would go at `now`, read bound or not. */
  function Target(zones: Zones, row: Row, now: int): Option<Status>
  {
    if IsTicked(row.status) then Decide(zones, CandidateOf("", row), now).target else None
  }

  // ---- the read cuts nothing that could move ----

  /** No zone is ahead of UTC by more than fourteen hours. */
  ghost predicate NoZoneAheadOf14h(zones: Zones)
  {
    forall zone, day, hour :: zones.instantOf(zone, day, hour) >= day * DAY_MS + hour * HOUR_MS - 14 * HOUR_MS
  }

  predicate EndsAfterStart(row: Row)
  {
    row.startDate.Some? && row.endDate.Some? ==> row.endDate.value >= row.startDate.value
  }

  /** An Event that could move is one the read returns. */
  lemma {:induction false} ReadCutsNothing(zones: Zones, row: Row, now: int)
    requires NoZoneAheadOf14h(zones) && EndsAfterStart(row)
    ensures Target(zones, row, now).Some? ==> IsRead(row, now)
  {
    if Target(zones, row, now).Some? {
      var start, end := row.startDate.value, row.endDate.value;
      assert zones.instantOf(row.timezone, start, 0) >= start * DAY_MS + 0 * HOUR_MS - 14 * HOUR_MS;
      assert zones.instantOf(row.timezone, end + 1, CLOSING_HOUR) >= (end + 1) * DAY_MS + CLOSING_HOUR * HOUR_MS - 14 * HOUR_MS;
    }
  }

  /**
   * What being settled means on the Event's own clock: a published Event has not opened, a running
   * one has not closed; and a move is never early: to running only between opening and closing, to
   * completed only after closing.
   */
  lemma {:induction false} StatusFollowsTheClock(zones: Zones, row: Row, now: int, window: OpenWindow)
    requires EventOpenWindow(zones, row.startDate, row.endDate, row.timezone) == Some(window)
    ensures Target(zones, row, now).None? && row.status == Published ==> now < window.opensAt && now < window.closesAt
    ensures Target(zones, row, now).None? && row.status == Running ==> now < window.closesAt
    ensures Target(zones, row, now) == Some(Running) ==> row.status == Published && window.opensAt <= now < window.closesAt
    ensures Target(zones, row, now) == Some(Completed) ==> window.closesAt <= now && row.status in {Published, Running}
  {
  }

  // ---- one tick nobody disturbs ----

  /** A row after a tick that read it. */
  function Ticked(zones: Zones, row: Row, now: int): Row
  {
    if IsRead(row, now) && Target(zones, row, now).Some? then Moved(row, Target(zones, row, now).value, now) else row
  }

  predicate DistinctIds(ids: seq<string>)
  {
    forall i, j :: 0 <= i < j < |ids| ==> ids[i] != ids[j]
  }

  /** Nothing is left to move of a row a tick has seen to, read or not. */
  lemma {:induction false} TickedIsSettled(zones: Zones, row: Row, now: int)
    requires NoZoneAheadOf14h(zones) && EndsAfterStart(row)
    ensures Target(zones, Ticked(zones, row, now), now).None?
    ensures !IsRead(row, now) ==> Ticked(zones, row, now) == row
  {
    ReadCutsNothing(zones, row, now);
    if Target(zones, row, now).Some? {
    }
  }

  /** A row's decision does not read its id. */
  lemma {:induction false} DecisionIsTarget(zones: Zones, id: string, row: Row, now: int)
    requires IsTicked(row.status)
    ensures Decide(zones, CandidateOf(id, row), now).target == Target(zones, row, now)
    ensures Target(zones, row, now).Some? ==> Target(zones, row, now).value == Running || Target(zones, row, now).value == Completed
  {
  }

  /** The ids a tick moved to a status: each once, and exactly those decided so. */
  ghost predicate IsMovedTo(zones: Zones, before: map<string, Row>, now: int, status: Status, ids: seq<string>)
  {
    && DistinctIds(ids)
    && forall id :: id in ids <==> id in before && IsRead(before[id], now) && Target(zones, before[id], now) == Some(status)
  }

  class EventsTable {
    var rows: map<string, Row>

    constructor (rows: map<string, Row>)
      ensures this.rows == rows
    {
      this.rows := rows;
    }

    method ReadCandidates(now: int) returns (candidates: seq<Candidate>)
      ensures forall i, j :: 0 <= i < j < |candidates| ==> candidates[i].id != candidates[j].id
      ensures forall c :: c in candidates <==> c.id in rows && IsRead(rows[c.id], now) && c == CandidateOf(c.id, rows[c.id])
    {
      candidates := [];
      var left := rows.Keys;
      while left != {}
        invariant left <= rows.Keys
        invariant forall i, j :: 0 <= i < j < |candidates| ==> candidates[i].id != candidates[j].id
        invariant forall c :: c in candidates <==>
                    c.id in rows.Keys - left && IsRead(rows[c.id], now) && c == CandidateOf(c.id, rows[c.id])
        decreases |left|
      {
        var id :| id in left;
        if IsRead(rows[id], now) {
          candidates := candidates + [CandidateOf(id, rows[id])];
        }
        left := left - {id};
      }
    }

    /** One move, only if the row still holds what it was decided on. */
    method WriteOne(row: Candidate, target: Status, now: int) returns (landed: bool)
      modifies this
      ensures landed <==> row.id in old(rows) && Holds(old(rows[row.id]), row)
      ensures rows == if landed then old(rows)[row.id := Moved(old(rows[row.id]), target, now)] else old(rows)
    {
      landed := row.id in rows && Holds(rows[row.id], row);
      if landed {
        rows := rows[row.id := Moved(rows[row.id], target, now)];
      }
    }

    /** A candidate still as it was read moves where its dates say. */
    method MoveOne(zones: Zones, c: Candidate, now: int) returns (moved: Option<Status>)
      requires c.id in rows && c == CandidateOf(c.id, rows[c.id]) && IsRead(rows[c.id], now)
      modifies this
      ensures moved == Target(zones, old(rows[c.id]), now)
      ensures rows == old(rows)[c.id := Ticked(zones, old(rows[c.id]), now)]
    {
      DecisionIsTarget(zones, c.id, rows[c.id], now);
      moved := Decide(zones, c, now).target;
      if moved.Some? {
        var landed := WriteOne(c, moved.value, now);
        if !landed {
          moved := None;
        }
      } else {
        assert rows == rows[c.id := rows[c.id]];
      }
    }

    /** One tick with nobody else writing: it moves and counts exactly what could move, and leaves nothing to move. */
    method Tick(zones: Zones, now: int) returns (running: seq<string>, completed: seq<string>)
      requires NoZoneAheadOf14h(zones) && forall id :: id in rows ==> EndsAfterStart(rows[id])
      modifies this
      ensures rows.Keys == old(rows.Keys)
      ensures forall id :: id in rows ==> rows[id] == Ticked(zones, old(rows[id]), now)
      ensures IsMovedTo(zones, old(rows), now, Running, running) && IsMovedTo(zones, old(rows), now, Completed, completed)
      ensures forall id :: id in rows ==> Target(zones, rows[id], now).None?
    {
      ghost var before := rows;
      running, completed := [], [];
      var candidates := ReadCandidates(now);
      for i := 0 to |candidates|
        invariant rows.Keys == before.Keys
        invariant forall id :: id in rows ==> rows[id] == (if SeenIn(candidates[..i], id) then Ticked(zones, before[id], now) else before[id])
        invariant DistinctIds(running) && DistinctIds(completed)
        invariant forall id :: id in running <==> SeenIn(candidates[..i], id) && Target(zones, before[id], now) == Some(Running)
        invariant forall id :: id in completed <==> SeenIn(candidates[..i], id) && Target(zones, before[id], now) == Some(Completed)
      {
        var c := candidates[i];
        assert c in candidates;
        SeenOneMore(candidates, i);
        var moved := MoveOne(zones, c, now);
        if moved == Some(Running) {
          running := running + [c.id];
        } else if moved == Some(Completed) {
          completed := completed + [c.id];
        }
      }
      assert candidates[..|candidates|] == candidates;
      forall id | id in rows
        ensures rows[id] == Ticked(zones, before[id], now) && Target(zones, rows[id], now).None?
        ensures SeenIn(candidates, id) <==> IsRead(before[id], now)
      {
        assert IsRead(before[id], now) ==> CandidateOf(id, before[id]) in candidates;
        TickedIsSettled(zones, before[id], now);
      }
    }
  }

  predicate SeenIn(candidates: seq<Candidate>, id: string)
  {
    exists k :: 0 <= k < |candidates| && candidates[k].id == id
  }

  lemma {:induction false} SeenOneMore(candidates: seq<Candidate>, i: nat)
    requires i < |candidates|
    requires forall a, b :: 0 <= a < b < |candidates| ==> candidates[a].id != candidates[b].id
    ensures forall id :: SeenIn(candidates[..i + 1], id) <==> SeenIn(candidates[..i], id) || id == candidates[i].id
    ensures !SeenIn(candidates[..i], candidates[i].id)
  {
    forall id
      ensures SeenIn(candidates[..i + 1], id) <==> SeenIn(candidates[..i], id) || id == candidates[i].id
    {
      if SeenIn(candidates[..i], id) {
        var k :| 0 <= k < i && candidates[..i][k].id == id;
        assert candidates[..i + 1][k].id == id;
      }
      assert candidates[..i + 1][i] == candidates[i];
      if SeenIn(candidates[..i + 1], id) && id != candidates[i].id {
        var k :| 0 <= k < i + 1 && candidates[..i + 1][k].id == id;
        assert candidates[..i][k].id == id;
      }
    }
  }
}
