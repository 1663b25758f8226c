// "Starting soon" for a referee duty: when an alert is set (apps/api/src/workers/duty-alert-rings.ts),
// and the queue it stands in (apps/api/src/workers/follow-notification-scheduler.worker.ts).
module DutyAlert {
  import opened Options

  datatype Outcome = Sent | Dropped | Failed

  /** One alert per duty and follower. */
  datatype Key = Key(assignmentId: string, followerUserId: string)

  /** A job of the queue: the start it was set for, when it was set, when it is due, and what came of it. */
  datatype Job = Job(startsAt: int, setAt: int, dueAt: int, fired: Option<Outcome>)

  datatype AlertStep = SetIt | Keep | Remove

  predicate HasFired(held: Option<Job>)
  {
    held.Some? && held.value.fired.Some?
  }

  /** The start an alert rang for; none unless it was sent. */
  function RangFor(held: Option<Job>): Option<int>
  {
    if held.Some? && held.value.fired == Some(Sent) then Some(held.value.startsAt) else None
  }

  function DutyAlertStep(startsAt: int, now: int, held: Option<Job>): AlertStep
  {
    if startsAt <= now then Remove
    else if RangFor(held) == Some(startsAt) then Keep
    else SetIt
  }

  function Held(jobs: map<Key, Job>, key: Key): Option<Job>
  {
    if key in jobs then Some(jobs[key]) else None
  }

  /** `computeNotificationDelayMs` after `now`: never in the past. */
  function DueAt(startsAt: int, leadMinutes: nat, now: int): int
  {
    if startsAt - leadMinutes * 60_000 > now then startsAt - leadMinutes * 60_000 else now
  }

  /** `cancelRefereeStarting`: remove an alert that still waits. */
  function Cancelled(jobs: map<Key, Job>, key: Key): map<Key, Job>
  {
    if key in jobs && !HasFired(Held(jobs, key)) then jobs - {key} else jobs
  }

  /** `replaceJob`: whatever the queue held under the key is gone. */
  function Replaced(jobs: map<Key, Job>, key: Key, startsAt: int, leadMinutes: nat, now: int): map<Key, Job>
  {
    if startsAt <= now then jobs - {key}
    else (jobs - {key})[key := Job(startsAt, now, DueAt(startsAt, leadMinutes, now), None)]
  }

  /** A door: the lock, a retime of the duty's bouts, a change of a follow (`setRefereeAlert`). */
  datatype Door = Door(key: Key, startsAt: Option<int>, enabled: Option<bool>, leadMinutes: nat, now: int)

  predicate Asks(door: Door)
  {
    door.startsAt.Some? && door.enabled != Some(false)
  }

  function ThroughDoor(jobs: map<Key, Job>, door: Door): map<Key, Job>
  {
    if !Asks(door) then Cancelled(jobs, door.key)
    else
      match DutyAlertStep(door.startsAt.value, door.now, Held(jobs, door.key))
      case Keep => jobs
      case Remove => Cancelled(jobs, door.key)
      case SetIt => Replaced(jobs, door.key, door.startsAt.value, door.leadMinutes, door.now)
  }

  /**
   * What a door leaves under its key: for a start still to come, an alert that waits for exactly
   * that start or the record of one sent for it; otherwise nothing that waits. No other key changes.
   */
  lemma {:induction false} DoorLeavesTheRightAlert(jobs: map<Key, Job>, door: Door)
    ensures
      var held := Held(ThroughDoor(jobs, door), door.key);
      && (Asks(door) && door.startsAt.value > door.now ==>
            && held.Some? && held.value.startsAt == door.startsAt.value
            && (held.value.fired.None? || held.value.fired == Some(Sent))
            && (held.value.fired.None? ==> held.value.setAt == door.now <= held.value.dueAt))
      && (!Asks(door) || door.startsAt.value <= door.now ==> held.None? || held.value.fired.Some?)
    ensures forall key :: key != door.key ==> Held(ThroughDoor(jobs, door), key) == Held(jobs, key)
  {
  }

  class AlertQueue {
    var jobs: map<Key, Job>

    constructor ()
      ensures jobs == map[]
    {
      jobs := map[];
    }

    method GetJob(key: Key) returns (job: Option<Job>)
      ensures job == Held(jobs, key)
    {
      job := if key in jobs then Some(jobs[key]) else None;
    }

    method CancelRefereeStarting(key: Key)
      modifies this
      ensures jobs == Cancelled(old(jobs), key)
    {
      var existing := GetJob(key);
      if existing.Some? && !HasFired(existing) {
        jobs := jobs - {key};
      }
    }

    method ReplaceJob(key: Key, startsAt: int, leadMinutes: nat, now: int)
      modifies this
      ensures jobs == Replaced(old(jobs), key, startsAt, leadMinutes, now)
    {
      jobs := jobs - {key};
      if startsAt <= now {
        return;
      }
      jobs := jobs[key := Job(startsAt, now, DueAt(startsAt, leadMinutes, now), None)];
    }

    method SetRefereeAlert(door: Door)
      modifies this
      ensures jobs == ThroughDoor(old(jobs), door)
    {
      var held := GetJob(door.key);
      if door.startsAt.None? || door.enabled == Some(false) {
        CancelRefereeStarting(door.key);
        return;
      }
      var step := DutyAlertStep(door.startsAt.value, door.now, held);
      if step == Keep {
        return;
      }
      if step == Remove {
        CancelRefereeStarting(door.key);
        return;
      }
      ReplaceJob(door.key, door.startsAt.value, door.leadMinutes, door.now);
    }
  }

  // ---- runs ----

  /** A step of the queue. A failed job may be cleared away (`removeOnFail`); other fired ones stay. */
  datatype Step =
    | Enter(door: Door)
    | Cancel(key: Key)
    | Fire(key: Key, outcome: Outcome)
    | ClearFailed(key: Key)

  /** What happened to the alerts, in order. */
  datatype Happening =
    | WasSet(key: Key, startsAt: int, now: int)
    | Fired(key: Key, startsAt: int, outcome: Outcome)

  datatype World = World(jobs: map<Key, Job>, history: seq<Happening>)

  const EMPTY := World(map[], [])

  predicate Sets(jobs: map<Key, Job>, door: Door)
  {
    Asks(door) && DutyAlertStep(door.startsAt.value, door.now, Held(jobs, door.key)) == SetIt
  }

  function Apply(w: World, step: Step): World
  {
    match step
    case Enter(door) =>
      World(ThroughDoor(w.jobs, door),
            if Sets(w.jobs, door) then w.history + [WasSet(door.key, door.startsAt.value, door.now)] else w.history)
    case Cancel(key) => World(Cancelled(w.jobs, key), w.history)
    case Fire(key, outcome) =>
      if key in w.jobs && w.jobs[key].fired.None? then
        World(w.jobs[key := w.jobs[key].(fired := Some(outcome))], w.history + [Fired(key, w.jobs[key].startsAt, outcome)])
      else w
    case ClearFailed(key) =>
      if key in w.jobs && w.jobs[key].fired == Some(Failed) then World(w.jobs - {key}, w.history) else w
  }

  function Run(steps: seq<Step>): World
  {
    if steps == [] then EMPTY else Apply(Run(steps[..|steps| - 1]), steps[|steps| - 1])
  }

  /** After the i-th happening the alert was set for another start. */
  ghost predicate SetElsewhereSince(history: seq<Happening>, i: nat, key: Key, startsAt: int)
  {
    exists k :: i < k < |history| && history[k].WasSet? && history[k].key == key && history[k].startsAt != startsAt
  }

  /** An alert that was sent, and not set for another start since, is remembered. */
  ghost predicate SentIsRemembered(w: World)
  {
    forall i :: 0 <= i < |w.history| && w.history[i].Fired? && w.history[i].outcome == Sent
                && !SetElsewhereSince(w.history, i, w.history[i].key, w.history[i].startsAt) ==>
      w.history[i].key in w.jobs && RangFor(Held(w.jobs, w.history[i].key)) == Some(w.history[i].startsAt)
  }

  predicate SameRing(a: Happening, b: Happening)
  {
    a.Fired? && b.Fired? && a.key == b.key && a.startsAt == b.startsAt && a.outcome == Sent && b.outcome == Sent
  }

  /** Between two alerts sent for one start the alert was set for another. */
  ghost predicate NoStartRingsTwice(history: seq<Happening>)
  {
    forall i, j :: 0 <= i < j < |history| && SameRing(history[i], history[j]) ==>
      SetElsewhereSince(history[..j], i, history[i].key, history[i].startsAt)
  }

  /** No alert waits for a start that had passed when it was set. */
  ghost predicate WaitingIsForTheFuture(w: World)
  {
    && (forall key :: key in w.jobs ==> w.jobs[key].startsAt > w.jobs[key].setAt && w.jobs[key].dueAt >= w.jobs[key].setAt)
    && (forall i :: 0 <= i < |w.history| && w.history[i].WasSet? ==> w.history[i].startsAt > w.history[i].now)
  }

  lemma {:induction false} SetElsewhereGrows(history: seq<Happening>, more: Happening, i: nat, key: Key, startsAt: int)
    ensures SetElsewhereSince(history + [more], i, key, startsAt) <==>
            || SetElsewhereSince(history, i, key, startsAt)
            || (i < |history| && more.WasSet? && more.key == key && more.startsAt != startsAt)
  {
    var longer := history + [more];
    if SetElsewhereSince(history, i, key, startsAt) {
      var k :| i < k < |history| && history[k].WasSet? && history[k].key == key && history[k].startsAt != startsAt;
      assert longer[k] == history[k];
    }
    assert longer[|history|] == more;
  }

  lemma {:induction false} NoStartRingsTwiceGrows(history: seq<Happening>, more: Happening)
    requires NoStartRingsTwice(history)
    requires forall i :: 0 <= i < |history| && SameRing(history[i], more) ==> SetElsewhereSince(history, i, more.key, more.startsAt)
    ensures NoStartRingsTwice(history + [more])
  {
    var longer := history + [more];
    forall i, j | 0 <= i < j < |longer| && SameRing(longer[i], longer[j])
      ensures SetElsewhereSince(longer[..j], i, longer[i].key, longer[i].startsAt)
    {
      if j < |history| {
        assert longer[..j] == history[..j];
      } else {
        assert longer[..j] == history;
      }
    }
  }

  lemma {:induction false} DoorKeepsMemory(w: World, door: Door)
    requires SentIsRemembered(w)
    ensures SentIsRemembered(Apply(w, Enter(door)))
  {
    var after := Apply(w, Enter(door));
    forall i | 0 <= i < |after.history| && after.history[i].Fired? && after.history[i].outcome == Sent
               && !SetElsewhereSince(after.history, i, after.history[i].key, after.history[i].startsAt)
      ensures after.history[i].key in after.jobs
      ensures RangFor(Held(after.jobs, after.history[i].key)) == Some(after.history[i].startsAt)
    {
      if Sets(w.jobs, door) {
        SetElsewhereGrows(w.history, WasSet(door.key, door.startsAt.value, door.now), i, after.history[i].key,
                          after.history[i].startsAt);
      }
      assert i < |w.history| && w.history[i] == after.history[i];
    }
  }

  lemma {:induction false} FireKeepsMemory(w: World, key: Key, outcome: Outcome)
    requires SentIsRemembered(w) && key in w.jobs && w.jobs[key].fired.None?
    ensures SentIsRemembered(Apply(w, Fire(key, outcome)))
  {
    var after, fired := Apply(w, Fire(key, outcome)), Fired(key, w.jobs[key].startsAt, outcome);
    forall i | 0 <= i < |after.history| && after.history[i].Fired? && after.history[i].outcome == Sent
               && !SetElsewhereSince(after.history, i, after.history[i].key, after.history[i].startsAt)
      ensures after.history[i].key in after.jobs
      ensures RangFor(Held(after.jobs, after.history[i].key)) == Some(after.history[i].startsAt)
    {
      SetElsewhereGrows(w.history, fired, i, after.history[i].key, after.history[i].startsAt);
      if i < |w.history| {
        assert w.history[i] == after.history[i];
      }
    }
  }

  /** An alert about to fire has not rung for its start since it was last set for another. */
  lemma {:induction false} FireIsNew(w: World, key: Key, outcome: Outcome)
    requires SentIsRemembered(w) && NoStartRingsTwice(w.history) && key in w.jobs && w.jobs[key].fired.None?
    ensures NoStartRingsTwice(Apply(w, Fire(key, outcome)).history)
  {
    NoStartRingsTwiceGrows(w.history, Fired(key, w.jobs[key].startsAt, outcome));
  }

  /**
   * Over every run of doors, cancels and fires: two alerts sent to one follower for one start of a
   * duty always have a set for another start between them, and no alert is left waiting for a start
   * that had passed when it was set.
   */
  lemma {:induction false} EveryRunRingsOnce(steps: seq<Step>)
    ensures SentIsRemembered(Run(steps)) && NoStartRingsTwice(Run(steps).history) && WaitingIsForTheFuture(Run(steps))
  {
    if steps != [] {
      EveryRunRingsOnce(steps[..|steps| - 1]);
      var w := Run(steps[..|steps| - 1]);
      match steps[|steps| - 1] {
        case Enter(door) =>
          DoorKeepsMemory(w, door);
          if Sets(w.jobs, door) {
            NoStartRingsTwiceGrows(w.history, WasSet(door.key, door.startsAt.value, door.now));
          }
        case Cancel(key) =>
        case Fire(key, outcome) =>
          if key in w.jobs && w.jobs[key].fired.None? {
            FireKeepsMemory(w, key, outcome);
            FireIsNew(w, key, outcome);
          }
        case ClearFailed(key) =>
      }
    }
  }

  /** Every door of this run names one start for the key. */
  ghost predicate OneStart(steps: seq<Step>, key: Key, startsAt: int)
  {
    forall k :: 0 <= k < |steps| && steps[k].Enter? && steps[k].door.key == key && steps[k].door.startsAt.Some? ==>
      steps[k].door.startsAt.value == startsAt
  }

  lemma {:induction false} OneStartIsSetOnly(steps: seq<Step>, key: Key, startsAt: int)
    requires OneStart(steps, key, startsAt)
    ensures forall k :: 0 <= k < |Run(steps).history| && Run(steps).history[k].WasSet? && Run(steps).history[k].key == key ==>
              Run(steps).history[k].startsAt == startsAt
  {
    if steps != [] {
      var rest := steps[..|steps| - 1];
      assert forall k :: 0 <= k < |rest| ==> rest[k] == steps[k];
      OneStartIsSetOnly(rest, key, startsAt);
    }
  }

  /** A duty that is never retimed rings at most once for a follower, however often its doors are passed. */
  lemma {:induction false} OneStartRingsOnce(steps: seq<Step>, key: Key, startsAt: int, i: nat, j: nat)
    requires OneStart(steps, key, startsAt) && i < j < |Run(steps).history|
    requires Run(steps).history[i] == Fired(key, startsAt, Sent)
    ensures Run(steps).history[j] != Fired(key, startsAt, Sent)
  {
    EveryRunRingsOnce(steps);
    OneStartIsSetOnly(steps, key, startsAt);
    var history := Run(steps).history;
    assert !SetElsewhereSince(history[..j], i, key, startsAt);
    assert history[j] == Fired(key, startsAt, Sent) ==> SameRing(history[i], history[j]);
  }

  /** Moved to another start and back, a duty does ring twice for the first start. */
  lemma {:induction false} MovedAndBackRingsTwice(key: Key, first: int, second: int, now: int)
    requires now < first && now < second && first != second
    ensures
      var on := Some(true);
      Run([Enter(Door(key, Some(first), on, 10, now)), Fire(key, Sent), Enter(Door(key, Some(second), on, 10, now)),
           Enter(Door(key, Some(first), on, 10, now)), Fire(key, Sent)]).history
      == [WasSet(key, first, now), Fired(key, first, Sent), WasSet(key, second, now), WasSet(key, first, now), Fired(key, first, Sent)]
  {
    var on := Some(true);
    var s1 := [Enter(Door(key, Some(first), on, 10, now))];
    var s2 := s1 + [Fire(key, Sent)];
    var s3 := s2 + [Enter(Door(key, Some(second), on, 10, now))];
    var s4 := s3 + [Enter(Door(key, Some(first), on, 10, now))];
    var s5 := s4 + [Fire(key, Sent)];
    assert s1[..0] == [] && s2[..1] == s1 && s3[..2] == s2 && s4[..3] == s3 && s5[..4] == s4;
    assert Run(s1) == Apply(EMPTY, s1[0]);
    assert Run(s2) == Apply(Run(s1), s2[1]);
    assert Run(s3) == Apply(Run(s2), s3[2]);
    assert Run(s4) == Apply(Run(s3), s4[3]);
    assert Run(s5) == Apply(Run(s4), s5[4]);
    assert Run(s3).history == [WasSet(key, first, now), Fired(key, first, Sent), WasSet(key, second, now)];
    assert s5 == [Enter(Door(key, Some(first), on, 10, now)), Fire(key, Sent), Enter(Door(key, Some(second), on, 10, now)),
                  Enter(Door(key, Some(first), on, 10, now)), Fire(key, Sent)];
  }
}
