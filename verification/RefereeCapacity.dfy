// "Not enough referees at this time": the sweep over pool windows (packages/types/src/referee-capacity.ts)
// and who is available (packages/types/src/referee-availability.ts).
module RefereeCapacity {
  import opened Options
  import opened Sorting

  /** What an instant's text means: its milliseconds, and its date on the Event's clock. */
  datatype Calendar = Calendar(msOf: string -> int, dateOf: string -> Option<string>)

  datatype Window = Window(startMs: int, endMs: int)

  datatype AvailableDay = AvailableDay(date: string, window: Window)

  datatype Availability = Availability(tournamentIds: Option<seq<string>>, days: Option<seq<AvailableDay>>)

  datatype Ask = Ask(tournamentId: string, date: Option<string>, window: Option<Window>)

  datatype Pool = Pool(id: string, tournamentId: string, scheduledStart: string, scheduledEnd: string, roleSlotCount: nat,
                       fighterPersonIds: seq<string>)

  /** A pool that may have no planned window. */
  datatype Commitment = Commitment(id: string, tournamentId: string, scheduledStart: Option<string>, scheduledEnd: Option<string>,
                                   roleSlotCount: nat, fighterPersonIds: seq<string>)

  datatype Referee = Referee(personId: string, availability: Availability)

  datatype Warning = Warning(start: string, end: string, liceCount: nat, needed: nat, free: nat)

  // ---- availability ----

  function FindDay(days: seq<AvailableDay>, date: string): Option<AvailableDay>
  {
    if days == [] then None else if days[0].date == date then Some(days[0]) else FindDay(days[1..], date)
  }

  predicate IsAvailableFor(availability: Availability, ask: Ask)
  {
    && (availability.tournamentIds.Some? ==> ask.tournamentId in availability.tournamentIds.value)
    && (availability.days.Some? && ask.date.Some? ==>
          var day := FindDay(availability.days.value, ask.date.value);
          && day.Some?
          && (ask.window.Some? ==>
                ask.window.value.startMs >= day.value.window.startMs && ask.window.value.endMs <= day.value.window.endMs))
  }

  // ---- the sweep ----

  /** Pools with a planned window; an empty text is no time. */
  function Scheduled(pools: seq<Commitment>): seq<Pool>
  {
    if pools == [] then []
    else
      var earlier, p := Scheduled(pools[..|pools| - 1]), pools[|pools| - 1];
      if p.scheduledStart.None? || p.scheduledStart.value == "" || p.scheduledEnd.None? || p.scheduledEnd.value == "" then earlier
      else earlier + [Pool(p.id, p.tournamentId, p.scheduledStart.value, p.scheduledEnd.value, p.roleSlotCount, p.fighterPersonIds)]
  }

  function AddNew(xs: seq<string>, x: string): seq<string>
  {
    if x in xs then xs else xs + [x]
  }

  /** Every start and end, each text once. */
  function Edges(scheduled: seq<Pool>): seq<string>
  {
    if scheduled == [] then []
    else
      var p := scheduled[|scheduled| - 1];
      AddNew(AddNew(Edges(scheduled[..|scheduled| - 1]), p.scheduledStart), p.scheduledEnd)
  }

  function Earlier(cal: Calendar): (string, string) -> bool
  {
    (a, b) => cal.msOf(a) < cal.msOf(b)
  }

  function Boundaries(cal: Calendar, scheduled: seq<Pool>): seq<string>
  {
    SortBy(Edges(scheduled), Earlier(cal))
  }

  predicate RunsAt(cal: Calendar, p: Pool, instant: int)
  {
    cal.msOf(p.scheduledStart) <= instant < cal.msOf(p.scheduledEnd)
  }

  /** The pools that run at an instant. */
  function Active(cal: Calendar, scheduled: seq<Pool>, instant: int): seq<Pool>
  {
    if scheduled == [] then []
    else
      var earlier, p := Active(cal, scheduled[..|scheduled| - 1], instant), scheduled[|scheduled| - 1];
      if RunsAt(cal, p, instant) then earlier + [p] else earlier
  }

  function Needed(active: seq<Pool>): nat
  {
    if active == [] then 0 else Needed(active[..|active| - 1]) + active[|active| - 1].roleSlotCount
  }

  predicate Fights(active: seq<Pool>, personId: string)
  {
    exists i :: 0 <= i < |active| && personId in active[i].fighterPersonIds
  }

  predicate AvailableForSome(referee: Referee, active: seq<Pool>, date: Option<string>, window: Window)
  {
    exists i :: 0 <= i < |active| && IsAvailableFor(referee.availability, Ask(active[i].tournamentId, date, Some(window)))
  }

  predicate IsFree(referee: Referee, active: seq<Pool>, date: Option<string>, window: Window)
  {
    !Fights(active, referee.personId) && AvailableForSome(referee, active, date, window)
  }

  function CountFree(referees: seq<Referee>, active: seq<Pool>, date: Option<string>, window: Window): nat
  {
    if referees == [] then 0
    else
      CountFree(referees[..|referees| - 1], active, date, window)
      + if IsFree(referees[|referees| - 1], active, date, window) then 1 else 0
  }

  function WindowOf(cal: Calendar, start: string, end: string): Window
  {
    Window(cal.msOf(start), cal.msOf(end))
  }

  /** The warning of one stretch between two edges, if it has one. */
  function WarningAt(cal: Calendar, scheduled: seq<Pool>, referees: seq<Referee>, start: string, end: string): Option<Warning>
  {
    var active := Active(cal, scheduled, cal.msOf(start));
    var free := CountFree(referees, active, cal.dateOf(start), WindowOf(cal, start, end));
    if active == [] || Needed(active) <= free then None
    else Some(Warning(start, end, |active|, Needed(active), free))
  }

  /** The warnings of the first `n` stretches. */
  function Warnings(cal: Calendar, scheduled: seq<Pool>, referees: seq<Referee>, boundaries: seq<string>, n: nat): seq<Warning>
    requires n == 0 || n < |boundaries|
  {
    if n == 0 then []
    else
      var earlier := Warnings(cal, scheduled, referees, boundaries, n - 1);
      match WarningAt(cal, scheduled, referees, boundaries[n - 1], boundaries[n])
      case None => earlier
      case Some(w) => earlier + [w]
  }

  /** The warnings of every stretch between neighbouring boundaries. */
  function AllWarnings(cal: Calendar, scheduled: seq<Pool>, referees: seq<Referee>, boundaries: seq<string>): seq<Warning>
  {
    Warnings(cal, scheduled, referees, boundaries, if |boundaries| == 0 then 0 else |boundaries| - 1)
  }

  function Shortages(cal: Calendar, pools: seq<Commitment>, referees: seq<Referee>): seq<Warning>
  {
    AllWarnings(cal, Scheduled(pools), referees, Boundaries(cal, Scheduled(pools)))
  }

  method DetectConcurrencyShortage(cal: Calendar, pools: seq<Commitment>, referees: seq<Referee>) returns (warnings: seq<Warning>)
    ensures warnings == Shortages(cal, pools, referees)
  {
    var scheduled := Scheduled(pools);
    if |scheduled| == 0 {
      return [];
    }
    warnings := Sweep(cal, scheduled, referees, Boundaries(cal, scheduled));
  }

  method Sweep(cal: Calendar, scheduled: seq<Pool>, referees: seq<Referee>, boundaries: seq<string>) returns (warnings: seq<Warning>)
    ensures warnings == AllWarnings(cal, scheduled, referees, boundaries)
  {
    warnings := [];
    if |boundaries| == 0 {
      return;
    }
    for i := 0 to |boundaries| - 1
      invariant warnings == Warnings(cal, scheduled, referees, boundaries, i)
    {
      var start, end := boundaries[i], boundaries[i + 1];
      var active := Active(cal, scheduled, cal.msOf(start));
      if |active| == 0 {
        continue;
      }
      var needed := Needed(active);
      var free := CountFree(referees, active, cal.dateOf(start), WindowOf(cal, start, end));
      if needed > free {
        warnings := warnings + [Warning(start, end, |active|, needed, free)];
      }
    }
  }

  // ---- the boundaries ----

  lemma {:induction false} EdgesAreTheEdges(scheduled: seq<Pool>)
    ensures forall p :: p in scheduled ==> p.scheduledStart in Edges(scheduled) && p.scheduledEnd in Edges(scheduled)
  {
    if scheduled != [] {
      var rest, last := scheduled[..|scheduled| - 1], scheduled[|scheduled| - 1];
      EdgesAreTheEdges(rest);
      assert scheduled == rest + [last];
    }
  }

  ghost predicate InTimeOrder(cal: Calendar, boundaries: seq<string>)
  {
    forall i, j :: 0 <= i < j < |boundaries| ==> cal.msOf(boundaries[i]) <= cal.msOf(boundaries[j])
  }

  ghost predicate HoldsEdges(scheduled: seq<Pool>, boundaries: seq<string>)
  {
    forall p :: p in scheduled ==> p.scheduledStart in boundaries && p.scheduledEnd in boundaries
  }

  lemma {:induction false} BoundariesAreOrderedEdges(cal: Calendar, scheduled: seq<Pool>)
    ensures InTimeOrder(cal, Boundaries(cal, scheduled)) && HoldsEdges(scheduled, Boundaries(cal, scheduled))
  {
    EdgesAreTheEdges(scheduled);
    assert IsOrder(Earlier(cal));
    SortSorts(Edges(scheduled), Earlier(cal));
    SortKeepsMembers(Edges(scheduled), Earlier(cal));
    var boundaries := Boundaries(cal, scheduled);
    forall i, j | 0 <= i < j < |boundaries|
      ensures cal.msOf(boundaries[i]) <= cal.msOf(boundaries[j])
    {
      assert !Earlier(cal)(boundaries[j], boundaries[i]);
    }
  }

  predicate HaveDates(cal: Calendar, boundaries: seq<string>)
  {
    forall i :: 0 <= i < |boundaries| ==> cal.dateOf(boundaries[i]).Some?
  }

  lemma {:induction false} EdgesHaveTheirDates(cal: Calendar, scheduled: seq<Pool>)
    requires EdgesHaveDates(cal, scheduled)
    ensures forall edge :: edge in Edges(scheduled) ==> cal.dateOf(edge).Some?
  {
    if scheduled != [] {
      var rest, last := scheduled[..|scheduled| - 1], scheduled[|scheduled| - 1];
      assert last in scheduled;
      EdgesHaveTheirDates(cal, rest);
    }
  }

  lemma {:induction false} BoundariesHaveDates(cal: Calendar, scheduled: seq<Pool>)
    requires EdgesHaveDates(cal, scheduled)
    ensures HaveDates(cal, Boundaries(cal, scheduled))
  {
    EdgesHaveTheirDates(cal, scheduled);
    SortKeepsMembers(Edges(scheduled), Earlier(cal));
  }

  /** No edge lies inside a stretch between two neighbouring boundaries. */
  lemma {:induction false} NoEdgeInside(cal: Calendar, boundaries: seq<string>, i: nat, edge: string)
    requires InTimeOrder(cal, boundaries) && i + 1 < |boundaries| && edge in boundaries
    ensures cal.msOf(edge) <= cal.msOf(boundaries[i]) || cal.msOf(boundaries[i + 1]) <= cal.msOf(edge)
  {
    var k :| 0 <= k < |boundaries| && boundaries[k] == edge;
  }

  /** The pools that run do not change within a stretch. */
  lemma {:induction false} ActiveIsConstant(cal: Calendar, scheduled: seq<Pool>, boundaries: seq<string>, i: nat, instant: int)
    requires InTimeOrder(cal, boundaries) && HoldsEdges(scheduled, boundaries) && i + 1 < |boundaries|
    requires cal.msOf(boundaries[i]) <= instant < cal.msOf(boundaries[i + 1])
    ensures Active(cal, scheduled, instant) == Active(cal, scheduled, cal.msOf(boundaries[i]))
  {
    if scheduled != [] {
      var rest, last := scheduled[..|scheduled| - 1], scheduled[|scheduled| - 1];
      assert scheduled == rest + [last];
      assert last in scheduled;
      ActiveIsConstant(cal, rest, boundaries, i, instant);
      NoEdgeInside(cal, boundaries, i, last.scheduledStart);
      NoEdgeInside(cal, boundaries, i, last.scheduledEnd);
    }
  }

  lemma {:induction false} ActiveRuns(cal: Calendar, scheduled: seq<Pool>, instant: int)
    ensures forall p :: p in Active(cal, scheduled, instant) <==> p in scheduled && RunsAt(cal, p, instant)
  {
    if scheduled != [] {
      var rest, last := scheduled[..|scheduled| - 1], scheduled[|scheduled| - 1];
      assert scheduled == rest + [last];
      ActiveRuns(cal, rest, instant);
    }
  }

  /** A pool that runs when a stretch begins runs until the stretch ends. */
  lemma {:induction false} ActiveLastsTheStretch(cal: Calendar, scheduled: seq<Pool>, boundaries: seq<string>, i: nat, p: Pool)
    requires InTimeOrder(cal, boundaries) && HoldsEdges(scheduled, boundaries) && i + 1 < |boundaries|
    requires p in Active(cal, scheduled, cal.msOf(boundaries[i]))
    ensures cal.msOf(p.scheduledStart) <= cal.msOf(boundaries[i]) && cal.msOf(boundaries[i + 1]) <= cal.msOf(p.scheduledEnd)
  {
    ActiveRuns(cal, scheduled, cal.msOf(boundaries[i]));
    NoEdgeInside(cal, boundaries, i, p.scheduledEnd);
  }

  /** The stretch an instant lies in, when something runs then. */
  lemma {:induction false} StretchOf(cal: Calendar, boundaries: seq<string>, instant: int, from: nat, till: nat) returns (i: nat)
    requires from < till < |boundaries|
    requires cal.msOf(boundaries[from]) <= instant < cal.msOf(boundaries[till])
    ensures i + 1 < |boundaries| && cal.msOf(boundaries[i]) <= instant < cal.msOf(boundaries[i + 1])
    decreases till
  {
    if cal.msOf(boundaries[till - 1]) <= instant {
      i := till - 1;
    } else {
      i := StretchOf(cal, boundaries, instant, from, till - 1);
    }
  }

  // ---- the pointwise question ----

  /** A day's window lies inside its own date: an instant of it that has a date has that one. */
  ghost predicate DaysHoldTheirWindows(cal: Calendar, referees: seq<Referee>)
  {
    forall r, day, text ::
      (r in referees && r.availability.days.Some? && day in r.availability.days.value
       && day.window.startMs <= cal.msOf(text) < day.window.endMs && cal.dateOf(text).Some?)
      ==> cal.dateOf(text) == Some(day.date)
  }

  /** The planned starts are instants that have a date. */
  predicate StartsHaveDates(cal: Calendar, scheduled: seq<Pool>)
  {
    forall p :: p in scheduled ==> cal.dateOf(p.scheduledStart).Some?
  }

  /** The planned starts and ends are. */
  predicate EdgesHaveDates(cal: Calendar, scheduled: seq<Pool>)
  {
    forall p :: p in scheduled ==> cal.dateOf(p.scheduledStart).Some? && cal.dateOf(p.scheduledEnd).Some?
  }

  lemma {:induction false} FindDayFinds(days: seq<AvailableDay>, date: string)
    ensures FindDay(days, date).Some? ==> FindDay(days, date).value in days && FindDay(days, date).value.date == date
  {
    if days != [] && days[0].date != date {
      FindDayFinds(days[1..], date);
    }
  }

  /** Whoever is available for a whole run is available for a stretch of it, asked on the stretch's own date. */
  lemma {:induction false} AvailableForStretch(cal: Calendar, referees: seq<Referee>, r: Referee, tournamentId: string,
                                               start: string, end: string, from: string, to: string)
    requires DaysHoldTheirWindows(cal, referees) && r in referees && cal.dateOf(start).Some?
    requires IsAvailableFor(r.availability, Ask(tournamentId, cal.dateOf(start), Some(WindowOf(cal, start, end))))
    requires cal.msOf(start) <= cal.msOf(from) && cal.msOf(to) <= cal.msOf(end) && cal.msOf(from) < cal.msOf(end)
    ensures IsAvailableFor(r.availability, Ask(tournamentId, cal.dateOf(from), Some(WindowOf(cal, from, to))))
  {
    if r.availability.days.Some? && cal.dateOf(from).Some? {
      FindDayFinds(r.availability.days.value, cal.dateOf(start).value);
      assert cal.dateOf(from) == cal.dateOf(start);
    }
  }

  // ---- counting an assignment ----

  ghost predicate Distinct(xs: seq<nat>)
  {
    forall i, j :: 0 <= i < j < |xs| ==> xs[i] != xs[j]
  }

  lemma {:induction false} RemoveOne(xs: seq<nat>, k: nat)
    requires Distinct(xs) && k < |xs|
    ensures Distinct(xs[..k] + xs[k + 1..])
    ensures forall x :: x in xs[..k] + xs[k + 1..] ==> x in xs && x != xs[k]
  {
    var ys := xs[..k] + xs[k + 1..];
    assert forall i :: 0 <= i < |ys| ==> ys[i] == xs[if i < k then i else i + 1];
  }

  /** Distinct free referees are no more than the free ones counted. */
  lemma {:induction false} DistinctAreCounted(referees: seq<Referee>, chosen: seq<nat>, active: seq<Pool>, date: Option<string>, window: Window)
    requires Distinct(chosen)
    requires forall k :: k in chosen ==> k < |referees| && IsFree(referees[k], active, date, window)
    ensures |chosen| <= CountFree(referees, active, date, window)
    decreases |referees|
  {
    assert chosen != [] ==> chosen[0] in chosen;
    if referees != [] {
      var n, rest := |referees| - 1, referees[..|referees| - 1];
      if n in chosen {
        var k :| 0 <= k < |chosen| && chosen[k] == n;
        var fewer := chosen[..k] + chosen[k + 1..];
        RemoveOne(chosen, k);
        forall x | x in fewer
          ensures x < n && rest[x] == referees[x]
        {
          assert x in chosen && x != n;
        }
        DistinctAreCounted(rest, fewer, active, date, window);
      } else {
        assert forall x :: x in chosen ==> x < n && rest[x] == referees[x];
        DistinctAreCounted(rest, chosen, active, date, window);
      }
    }
  }

  /** One referee for every role slot of the pools that run: each pool's own list of places in `referees`. */
  ghost predicate Staffs(cal: Calendar, active: seq<Pool>, referees: seq<Referee>, roster: seq<seq<nat>>)
  {
    && |roster| == |active|
    && (forall a :: 0 <= a < |active| ==> |roster[a]| == active[a].roleSlotCount)
    && (forall a, k :: 0 <= a < |active| && 0 <= k < |roster[a]| ==>
          && roster[a][k] < |referees|
          && !Fights(active, referees[roster[a][k]].personId)
          && IsAvailableFor(referees[roster[a][k]].availability,
                            Ask(active[a].tournamentId, cal.dateOf(active[a].scheduledStart),
                                Some(WindowOf(cal, active[a].scheduledStart, active[a].scheduledEnd)))))
    && Distinct(Flatten(roster))
  }

  /** Every slot of the pools that run can have its own referee, not fighting then and available for the pool's whole run. */
  ghost predicate CanStaff(cal: Calendar, active: seq<Pool>, referees: seq<Referee>)
  {
    exists roster :: Staffs(cal, active, referees, roster)
  }

  function Flatten(lists: seq<seq<nat>>): seq<nat>
  {
    if lists == [] then [] else Flatten(lists[..|lists| - 1]) + lists[|lists| - 1]
  }

  lemma {:induction false} FlattenHolds(lists: seq<seq<nat>>, x: nat)
    requires x in Flatten(lists)
    ensures exists a, k :: 0 <= a < |lists| && 0 <= k < |lists[a]| && lists[a][k] == x
  {
    var n, rest := |lists| - 1, lists[..|lists| - 1];
    if x in lists[n] {
      var k :| 0 <= k < |lists[n]| && lists[n][k] == x;
    } else {
      FlattenHolds(rest, x);
      var a, k :| 0 <= a < |rest| && 0 <= k < |rest[a]| && rest[a][k] == x;
      assert lists[a][k] == x;
    }
  }

  lemma {:induction false} FlattenIsAsLongAsNeeded(active: seq<Pool>, lists: seq<seq<nat>>)
    requires |lists| == |active| && forall a :: 0 <= a < |active| ==> |lists[a]| == active[a].roleSlotCount
    ensures |Flatten(lists)| == Needed(active)
  {
    if lists != [] {
      FlattenIsAsLongAsNeeded(active[..|active| - 1], lists[..|lists| - 1]);
    }
  }

  /** A referee of the assignment counts as free in the stretch. */
  lemma {:induction false} AssignedIsFree(cal: Calendar, scheduled: seq<Pool>, referees: seq<Referee>, boundaries: seq<string>, i: nat,
                                          roster: seq<seq<nat>>, a: nat, k: nat)
    requires InTimeOrder(cal, boundaries) && HoldsEdges(scheduled, boundaries) && i + 1 < |boundaries|
    requires DaysHoldTheirWindows(cal, referees) && StartsHaveDates(cal, scheduled)
    requires Staffs(cal, Active(cal, scheduled, cal.msOf(boundaries[i])), referees, roster)
    requires a < |roster| && k < |roster[a]|
    ensures roster[a][k] < |referees|
    ensures IsFree(referees[roster[a][k]], Active(cal, scheduled, cal.msOf(boundaries[i])), cal.dateOf(boundaries[i]),
                   WindowOf(cal, boundaries[i], boundaries[i + 1]))
  {
    var active := Active(cal, scheduled, cal.msOf(boundaries[i]));
    var r, p := referees[roster[a][k]], active[a];
    assert p in active && r in referees;
    ActiveLastsTheStretch(cal, scheduled, boundaries, i, p);
    ActiveRuns(cal, scheduled, cal.msOf(boundaries[i]));
    AvailableForStretch(cal, referees, r, p.tournamentId, p.scheduledStart, p.scheduledEnd, boundaries[i], boundaries[i + 1]);
  }

  /** A stretch whose pools can be staffed is not warned about. */
  lemma {:induction false} StaffedIsNotWarned(cal: Calendar, scheduled: seq<Pool>, referees: seq<Referee>, boundaries: seq<string>, i: nat)
    requires InTimeOrder(cal, boundaries) && HoldsEdges(scheduled, boundaries) && i + 1 < |boundaries|
    requires DaysHoldTheirWindows(cal, referees) && StartsHaveDates(cal, scheduled)
    requires CanStaff(cal, Active(cal, scheduled, cal.msOf(boundaries[i])), referees)
    ensures WarningAt(cal, scheduled, referees, boundaries[i], boundaries[i + 1]).None?
  {
    var active := Active(cal, scheduled, cal.msOf(boundaries[i]));
    var roster :| Staffs(cal, active, referees, roster);
    var chosen := Flatten(roster);
    var date, window := cal.dateOf(boundaries[i]), WindowOf(cal, boundaries[i], boundaries[i + 1]);
    forall x | x in chosen
      ensures x < |referees| && IsFree(referees[x], active, date, window)
    {
      FlattenHolds(roster, x);
      var a, k :| 0 <= a < |roster| && 0 <= k < |roster[a]| && roster[a][k] == x;
      AssignedIsFree(cal, scheduled, referees, boundaries, i, roster, a, k);
    }
    DistinctAreCounted(referees, chosen, active, date, window);
    FlattenIsAsLongAsNeeded(active, roster);
  }

  // ---- what the warnings say ----

  /** A warning and the boundaries it stands between. */
  lemma {:induction false} StretchOfWarning(cal: Calendar, scheduled: seq<Pool>, referees: seq<Referee>, boundaries: seq<string>,
                                            n: nat, w: Warning) returns (i: nat)
    requires n < |boundaries| && w in Warnings(cal, scheduled, referees, boundaries, n)
    ensures i < n && WarningAt(cal, scheduled, referees, boundaries[i], boundaries[i + 1]) == Some(w)
  {
    var last := WarningAt(cal, scheduled, referees, boundaries[n - 1], boundaries[n]);
    if last == Some(w) {
      i := n - 1;
    } else {
      i := StretchOfWarning(cal, scheduled, referees, boundaries, n - 1, w);
    }
  }

  lemma {:induction false} StretchIsWarned(cal: Calendar, scheduled: seq<Pool>, referees: seq<Referee>, boundaries: seq<string>,
                                           n: nat, i: nat)
    requires i < n < |boundaries| && WarningAt(cal, scheduled, referees, boundaries[i], boundaries[i + 1]).Some?
    ensures WarningAt(cal, scheduled, referees, boundaries[i], boundaries[i + 1]).value
            in Warnings(cal, scheduled, referees, boundaries, n)
  {
    if i < n - 1 {
      StretchIsWarned(cal, scheduled, referees, boundaries, n - 1, i);
      LaterKeepsWarning(cal, scheduled, referees, boundaries, n,
                        WarningAt(cal, scheduled, referees, boundaries[i], boundaries[i + 1]).value);
    } else {
      LastIsWarned(cal, scheduled, referees, boundaries, n);
    }
  }

  lemma {:induction false} LaterKeepsWarning(cal: Calendar, scheduled: seq<Pool>, referees: seq<Referee>, boundaries: seq<string>,
                                             n: nat, w: Warning)
    requires 0 < n < |boundaries| && w in Warnings(cal, scheduled, referees, boundaries, n - 1)
    ensures w in Warnings(cal, scheduled, referees, boundaries, n)
  {
  }

  lemma {:induction false} LastIsWarned(cal: Calendar, scheduled: seq<Pool>, referees: seq<Referee>, boundaries: seq<string>, n: nat)
    requires 0 < n < |boundaries| && WarningAt(cal, scheduled, referees, boundaries[n - 1], boundaries[n]).Some?
    ensures WarningAt(cal, scheduled, referees, boundaries[n - 1], boundaries[n]).value
            in Warnings(cal, scheduled, referees, boundaries, n)
  {
    var last := WarningAt(cal, scheduled, referees, boundaries[n - 1], boundaries[n]).value;
    var earlier := Warnings(cal, scheduled, referees, boundaries, n - 1);
    assert (earlier + [last])[|earlier|] == last;
  }

  lemma {:induction false} WarnedIsNotStaffed(cal: Calendar, scheduled: seq<Pool>, referees: seq<Referee>, boundaries: seq<string>,
                                              w: Warning, instant: int)
    requires InTimeOrder(cal, boundaries) && HoldsEdges(scheduled, boundaries)
    requires DaysHoldTheirWindows(cal, referees) && StartsHaveDates(cal, scheduled)
    requires w in AllWarnings(cal, scheduled, referees, boundaries) && cal.msOf(w.start) <= instant < cal.msOf(w.end)
    ensures !CanStaff(cal, Active(cal, scheduled, instant), referees)
    ensures w.liceCount == |Active(cal, scheduled, instant)| && w.needed == Needed(Active(cal, scheduled, instant))
  {
    var i := StretchOfWarning(cal, scheduled, referees, boundaries, |boundaries| - 1, w);
    ActiveIsConstant(cal, scheduled, boundaries, i, instant);
    if CanStaff(cal, Active(cal, scheduled, instant), referees) {
      StaffedIsNotWarned(cal, scheduled, referees, boundaries, i);
    }
  }

  /**
   * The sweep never over-warns: whenever it warns, no assignment staffs the pools that run, at any
   * instant of the warned stretch.
   */
  lemma {:induction false} NeverOverWarns(cal: Calendar, pools: seq<Commitment>, referees: seq<Referee>, w: Warning, instant: int)
    requires DaysHoldTheirWindows(cal, referees) && StartsHaveDates(cal, Scheduled(pools))
    requires w in Shortages(cal, pools, referees)
    requires cal.msOf(w.start) <= instant < cal.msOf(w.end)
    ensures !CanStaff(cal, Active(cal, Scheduled(pools), instant), referees)
    ensures w.liceCount == |Active(cal, Scheduled(pools), instant)| && w.needed == Needed(Active(cal, Scheduled(pools), instant))
  {
    BoundariesAreOrderedEdges(cal, Scheduled(pools));
    WarnedIsNotStaffed(cal, Scheduled(pools), referees, Boundaries(cal, Scheduled(pools)), w, instant);
  }

  /** Fewer referees are free over a stretch than at one of its instants. */
  lemma {:induction false} FewerAreFreeThroughout(cal: Calendar, all: seq<Referee>, referees: seq<Referee>, active: seq<Pool>,
                                                  start: string, end: string, now: string)
    requires DaysHoldTheirWindows(cal, all) && forall r :: r in referees ==> r in all
    requires cal.msOf(start) <= cal.msOf(now) < cal.msOf(end) && cal.dateOf(start).Some?
    ensures CountFree(referees, active, cal.dateOf(start), WindowOf(cal, start, end))
            <= CountFree(referees, active, cal.dateOf(now), WindowOf(cal, now, now))
  {
    if referees != [] {
      var rest, r := referees[..|referees| - 1], referees[|referees| - 1];
      assert r in referees;
      FewerAreFreeThroughout(cal, all, rest, active, start, end, now);
      if AvailableForSome(r, active, cal.dateOf(start), WindowOf(cal, start, end)) {
        var k :| 0 <= k < |active|
          && IsAvailableFor(r.availability, Ask(active[k].tournamentId, cal.dateOf(start), Some(WindowOf(cal, start, end))));
        AvailableForStretch(cal, all, r, active[k].tournamentId, start, end, now, now);
        assert AvailableForSome(r, active, cal.dateOf(now), WindowOf(cal, now, now));
      }
    }
  }

  /** The slots needed at an instant outnumber the referees free at that instant. */
  predicate ShortAt(cal: Calendar, scheduled: seq<Pool>, referees: seq<Referee>, now: string)
  {
    var active := Active(cal, scheduled, cal.msOf(now));
    Needed(active) > CountFree(referees, active, cal.dateOf(now), WindowOf(cal, now, now))
  }

  lemma {:induction false} StretchOfInstant(cal: Calendar, scheduled: seq<Pool>, boundaries: seq<string>, instant: int) returns (i: nat)
    requires HoldsEdges(scheduled, boundaries) && Active(cal, scheduled, instant) != [] && InTimeOrder(cal, boundaries)
    ensures i + 1 < |boundaries| && cal.msOf(boundaries[i]) <= instant < cal.msOf(boundaries[i + 1])
  {
    ActiveRuns(cal, scheduled, instant);
    var p := Active(cal, scheduled, instant)[0];
    assert p in Active(cal, scheduled, instant);
    var from :| 0 <= from < |boundaries| && boundaries[from] == p.scheduledStart;
    var till :| 0 <= till < |boundaries| && boundaries[till] == p.scheduledEnd;
    i := StretchOf(cal, boundaries, instant, from, till);
  }

  lemma {:induction false} ShortStretchIsWarned(cal: Calendar, scheduled: seq<Pool>, referees: seq<Referee>, boundaries: seq<string>,
                                                i: nat, now: string)
    requires InTimeOrder(cal, boundaries) && HoldsEdges(scheduled, boundaries) && HaveDates(cal, boundaries)
    requires DaysHoldTheirWindows(cal, referees)
    requires ShortAt(cal, scheduled, referees, now)
    requires i + 1 < |boundaries| && cal.msOf(boundaries[i]) <= cal.msOf(now) < cal.msOf(boundaries[i + 1])
    ensures
      var w := WarningAt(cal, scheduled, referees, boundaries[i], boundaries[i + 1]);
      && w.Some? && w.value.start == boundaries[i] && w.value.end == boundaries[i + 1]
      && w.value.needed == Needed(Active(cal, scheduled, cal.msOf(now)))
  {
    ActiveIsConstant(cal, scheduled, boundaries, i, cal.msOf(now));
    FewerAreFreeThroughout(cal, referees, referees, Active(cal, scheduled, cal.msOf(now)), boundaries[i], boundaries[i + 1], now);
  }

  lemma {:induction false} ShortageIsInAStretch(cal: Calendar, scheduled: seq<Pool>, referees: seq<Referee>, boundaries: seq<string>,
                                                now: string) returns (w: Warning)
    requires InTimeOrder(cal, boundaries) && HoldsEdges(scheduled, boundaries) && HaveDates(cal, boundaries)
    requires DaysHoldTheirWindows(cal, referees)
    requires ShortAt(cal, scheduled, referees, now)
    ensures w in AllWarnings(cal, scheduled, referees, boundaries) && cal.msOf(w.start) <= cal.msOf(now) < cal.msOf(w.end)
    ensures w.needed == Needed(Active(cal, scheduled, cal.msOf(now)))
  {
    assert Active(cal, scheduled, cal.msOf(now)) != [];
    var i := StretchOfInstant(cal, scheduled, boundaries, cal.msOf(now));
    ShortStretchIsWarned(cal, scheduled, referees, boundaries, i, now);
    StretchIsWarned(cal, scheduled, referees, boundaries, |boundaries| - 1, i);
    w := WarningAt(cal, scheduled, referees, boundaries[i], boundaries[i + 1]).value;
  }

  /** Every instant that is short of referees lies in a warned stretch, which counts the slots of that instant. */
  lemma {:induction false} EveryShortageIsWarned(cal: Calendar, pools: seq<Commitment>, referees: seq<Referee>, now: string)
    requires DaysHoldTheirWindows(cal, referees) && EdgesHaveDates(cal, Scheduled(pools))
    requires ShortAt(cal, Scheduled(pools), referees, now)
    ensures exists w :: w in Shortages(cal, pools, referees) && cal.msOf(w.start) <= cal.msOf(now) < cal.msOf(w.end)
                        && w.needed == Needed(Active(cal, Scheduled(pools), cal.msOf(now)))
  {
    BoundariesAreOrderedEdges(cal, Scheduled(pools));
    BoundariesHaveDates(cal, Scheduled(pools));
    var w := ShortageIsInAStretch(cal, Scheduled(pools), referees, Boundaries(cal, Scheduled(pools)), now);
  }
}
