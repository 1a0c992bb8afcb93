/**
 The alerts and notification_attempts tables, and the statements that change or
 read them. Each statement is one function from table to table; AlertStore is
 the store object the engine calls, one method a statement.
 */
module AlertTables {
  import opened Wrappers

  type AlertId = nat
  type WatchId = nat
  type ListingId = nat

  datatype Alert = Alert(
    watch: WatchId, listing: ListingId, score: int,
    notified: bool, notifiedAt: Option<int>, createdAt: int, dismissedAt: Option<int>)

  datatype AttemptRow = AttemptRow(alert: AlertId, succeeded: bool)

  /** used holds every id ever generated: generated ids do not repeat, even after a delete. */
  datatype Db = Db(alerts: map<AlertId, Alert>, attempts: seq<AttemptRow>, used: set<AlertId>)

  const EMPTY := Db(map[], [], {})

  predicate PendingFor(db: Db, id: AlertId, w: WatchId, l: ListingId) {
    id in db.alerts && db.alerts[id].watch == w && db.alerts[id].listing == l && !db.alerts[id].notified
  }

  /** INSERT ... ON CONFLICT (watch_id, listing_id) WHERE notified = false DO NOTHING */
  function InsertAlert(db: Db, id: AlertId, w: WatchId, l: ListingId, score: int, now: int): Db {
    if exists p <- db.alerts :: PendingFor(db, p, w, l) then db
    else db.(alerts := db.alerts[id := Alert(w, l, score, false, None, now, None)], used := db.used + {id})
  }

  /** UPDATE alerts SET notified = true, notified_at = now() WHERE id = ANY(ids) */
  function MarkNotified(db: Db, ids: seq<AlertId>, now: int): Db {
    db.(alerts := map id <- db.alerts ::
          if id in ids then db.alerts[id].(notified := true, notifiedAt := Some(now)) else db.alerts[id])
  }

  function InsertAttempt(db: Db, id: AlertId, succeeded: bool): Db {
    db.(attempts := db.attempts + [AttemptRow(id, succeeded)])
  }

  predicate HasSuccess(db: Db, id: AlertId) {
    AttemptRow(id, true) in db.attempts
  }

  predicate HasRecent(db: Db, w: WatchId, l: ListingId, cutoff: int) {
    exists id <- db.alerts ::
      db.alerts[id].watch == w && db.alerts[id].listing == l && db.alerts[id].notified
      && db.alerts[id].notifiedAt.Some? && db.alerts[id].notifiedAt.value > cutoff
  }

  function SetDismissed(db: Db, ids: seq<AlertId>, at: Option<int>): Db {
    db.(alerts := map id <- db.alerts ::
          if id in ids && db.alerts[id].dismissedAt.None? == at.Some?
          then db.alerts[id].(dismissedAt := at) else db.alerts[id])
  }

  function WithoutAlerts(rows: seq<AttemptRow>, gone: set<AlertId>): (kept: seq<AttemptRow>)
    ensures forall r :: r in kept <==> r in rows && r.alert !in gone
  {
    if rows == [] then []
    else (if rows[0].alert in gone then [] else [rows[0]]) + WithoutAlerts(rows[1..], gone)
  }

  /** DELETE FROM watches, which takes its alerts and their attempts with it. */
  function DeleteWatch(db: Db, w: WatchId): Db {
    var gone := set id <- db.alerts | db.alerts[id].watch == w;
    db.(alerts := db.alerts - gone, attempts := WithoutAlerts(db.attempts, gone))
  }

  /** ids lists the alerts with notified = false, each once. */
  ghost predicate IsPendingList(db: Db, ids: seq<AlertId>) {
    && (forall i, j :: 0 <= i < j < |ids| ==> ids[i] != ids[j])
    && (forall id :: id in ids <==> id in db.alerts && !db.alerts[id].notified)
  }

  class AlertStore {
    var alerts: map<AlertId, Alert>
    var attempts: seq<AttemptRow>
    ghost var used: set<AlertId>

    ghost function View(): Db
      reads this
    {
      Db(alerts, attempts, used)
    }

    constructor ()
      ensures View() == EMPTY
    {
      alerts, attempts, used := map[], [], {};
    }

    method HasSuccessfulNotification(id: AlertId) returns (already: bool)
      ensures already == HasSuccess(View(), id)
    {
      already := exists i :: 0 <= i < |attempts| && attempts[i] == AttemptRow(id, true);
    }

    method HasRecentAlert(w: WatchId, l: ListingId, cutoff: int) returns (recent: bool)
      ensures recent == HasRecent(View(), w, l, cutoff)
    {
      recent := exists id <- alerts ::
        alerts[id].watch == w && alerts[id].listing == l && alerts[id].notified
        && alerts[id].notifiedAt.Some? && alerts[id].notifiedAt.value > cutoff;
    }

    method InsertNotificationAttempt(id: AlertId, succeeded: bool, w: Write) returns (failed: bool)
      modifies this
      ensures View() == if w.Lost? then old(View()) else InsertAttempt(old(View()), id, succeeded)
      ensures attempts == old(attempts) + (if w.Lost? then [] else [AttemptRow(id, succeeded)])
      ensures alerts == old(alerts)
      ensures failed == !w.Committed?
    {
      if !w.Lost? {
        attempts := attempts + [AttemptRow(id, succeeded)];
      }
      failed := !w.Committed?;
    }

    method MarkAlertsNotified(ids: seq<AlertId>, now: int, w: Write) returns (failed: bool)
      modifies this
      ensures View() == if w.Lost? then old(View()) else MarkNotified(old(View()), ids, now)
      ensures attempts == old(attempts) && alerts.Keys == old(alerts).Keys
      ensures forall id <- alerts :: alerts[id] ==
                if id in ids && !w.Lost? then old(alerts)[id].(notified := true, notifiedAt := Some(now))
                else old(alerts)[id]
      ensures failed == !w.Committed?
    {
      if !w.Lost? {
        alerts := map id <- alerts ::
          if id in ids then alerts[id].(notified := true, notifiedAt := Some(now)) else alerts[id];
      }
      failed := !w.Committed?;
    }

    /** A conflict returns no row, which is not an error. */
    method CreateAlert(id: AlertId, w: WatchId, l: ListingId, score: int, now: int, write: Write)
      returns (failed: bool)
      requires id !in used
      modifies this
      ensures View() == if write.Lost? then old(View()) else InsertAlert(old(View()), id, w, l, score, now)
      ensures attempts == old(attempts)
      ensures alerts == if write.Lost? || exists p <- old(alerts) :: PendingFor(old(View()), p, w, l) then old(alerts)
                        else old(alerts)[id := Alert(w, l, score, false, None, now, None)]
      ensures failed == !write.Committed?
    {
      failed := !write.Committed?;
      if write.Lost? {
        return;
      }
      if forall p <- alerts :: alerts[p].watch != w || alerts[p].listing != l || alerts[p].notified {
        alerts := alerts[id := Alert(w, l, score, false, None, now, None)];
        used := used + {id};
        assert forall p <- old(View()).alerts :: !PendingFor(old(View()), p, w, l);
      } else {
        var p :| p in alerts && alerts[p].watch == w && alerts[p].listing == l && !alerts[p].notified;
        assert PendingFor(View(), p, w, l);
      }
    }
  }
}
