/**
 One alert-processing tick: pending alerts are grouped by watch, sent one by one
 or as a chunked batch, and recorded; or, in summary mode, sent as one embed.
 Then runs of any number of ticks, with alerts created, dismissed, restored and
 deleted between them.

 Every read and write of a tick may fail on its own, and every POST may be
 answered anything: Env says what happens to each, and the results hold for all.
 */
module AlertDelivery {
  import opened Wrappers
  import opened AlertTables
  import opened Discord

  const BATCH_THRESHOLD := 5

  datatype Env = Env(
    now: int,
    watchOk: WatchId -> bool,        // GetWatch
    checkOk: AlertId -> bool,        // HasSuccessfulNotification
    listingOk: AlertId -> bool,      // GetListingByID
    attemptWrite: AlertId -> Write,  // InsertNotificationAttempt
    markWrite: AlertId -> Write,     // MarkAlertNotified
    batchMark: WatchId -> Write,     // MarkAlertsNotified after a batch
    summaryMark: Write,              // MarkAlertsNotified after a summary
    single: AlertId -> Chunk,
    batch: WatchId -> (nat -> Chunk),
    summary: Chunk)

  /** An alert that was in a POST answered 2xx, and which of its two records survived. */
  datatype Delivery = Delivery(id: AlertId, perWatch: bool, rowKept: bool, marked: bool)

  /** An alert that was in a POST, and whether it landed. */
  datatype Try = Try(id: AlertId, ok: bool)

  datatype Out = Out(db: Db, bucket: Bucket, tried: seq<Try>, sent: seq<Delivery>, failed: bool)

  // ------------------------------------------------------------ specification

  function Record(db: Db, id: AlertId, ok: bool, e: Env): Db {
    if e.attemptWrite(id).Lost? then db else InsertAttempt(db, id, ok)
  }

  function RecordEach(db: Db, ids: seq<AlertId>, ok: bool, e: Env): Db
    decreases |ids|
  {
    if ids == [] then db else RecordEach(Record(db, ids[0], ok, e), ids[1..], ok, e)
  }

  function Mark(db: Db, ids: seq<AlertId>, w: Write, now: int): Db {
    if w.Lost? then db else MarkNotified(db, ids, now)
  }

  function Single(db: Db, b: Bucket, e: Env, id: AlertId): Out {
    if !e.checkOk(id) then Out(db, b, [], [], true)
    else if HasSuccess(db, id) then Out(db, b, [], [], false)
    else if !e.listingOk(id) then Out(db, b, [], [], true)
    else
      var ok := Posted(e.single(id));
      var db1 := Record(db, id, ok, e);
      var b1 := AfterPost(b, e.single(id));
      if !ok then Out(db1, b1, [Try(id, false)], [], true)
      else Out(Mark(db1, [id], e.markWrite(id), e.now), b1, [Try(id, true)],
               [Delivery(id, true, !e.attemptWrite(id).Lost?, !e.markWrite(id).Lost?)],
               !e.markWrite(id).Committed?)
  }

  /** o, then what follows it. */
  function After(o: Out, rest: Out): Out {
    rest.(tried := o.tried + rest.tried, sent := o.sent + rest.sent)
  }

  function Singles(db: Db, b: Bucket, e: Env, ids: seq<AlertId>): Out
    decreases |ids|
  {
    if ids == [] then Out(db, b, [], [], false)
    else
      var o := Single(db, b, e, ids[0]);
      if o.failed then o else After(o, Singles(o.db, o.bucket, e, ids[1..]))
  }

  predicate Sendable(db: Db, e: Env, id: AlertId) {
    e.checkOk(id) && !HasSuccess(db, id) && e.listingOk(id)
  }

  function ToSend(db: Db, e: Env, ids: seq<AlertId>): seq<AlertId> {
    if ids == [] then []
    else (if Sendable(db, e, ids[0]) then [ids[0]] else []) + ToSend(db, e, ids[1..])
  }

  lemma {:induction false} ToSendHas(db: Db, e: Env, ids: seq<AlertId>)
    ensures forall id :: id in ToSend(db, e, ids) <==> id in ids && Sendable(db, e, id)
    decreases |ids|
  {
    if ids != [] {
      ToSendHas(db, e, ids[1..]);
      assert forall id :: id in ids <==> id == ids[0] || id in ids[1..];
    }
  }

  function Deliveries(ids: seq<AlertId>, perWatch: bool, mark: Write, e: Env): (ds: seq<Delivery>)
    ensures |ds| == |ids|
    ensures forall i :: 0 <= i < |ids| ==> ds[i].id == ids[i]
  {
    seq(|ids|, i requires 0 <= i < |ids| =>
      Delivery(ids[i], perWatch, !e.attemptWrite(ids[i]).Lost?, !mark.Lost?))
  }

  function Tries(ids: seq<AlertId>, ok: bool): seq<Try> {
    seq(|ids|, i requires 0 <= i < |ids| => Try(ids[i], ok))
  }

  function BatchTries(list: seq<AlertId>, sent: nat): seq<Try>
    requires sent <= |list|
  {
    Tries(list[..sent], true) + Tries(list[sent..], false)
  }

  /** The bookkeeping of a batch of which the first `sent` landed. */
  function BatchRecords(db: Db, e: Env, w: WatchId, ids: seq<AlertId>, sent: nat): Db
    requires sent <= |ids|
  {
    var db1 := RecordEach(RecordEach(db, ids[..sent], true, e), ids[sent..], false, e);
    if sent == 0 then db1 else Mark(db1, ids[..sent], e.batchMark(w), e.now)
  }

  function Batch(db: Db, b: Bucket, e: Env, delay: int, w: WatchId, ids: seq<AlertId>): Out {
    var list := ToSend(db, e, ids);
    if list == [] then Out(db, b, [], [], false)
    else
      var d := Deliver(b, |list|, 0, delay, e.batch(w));
      DeliveredPrefix(b, |list|, 0, delay, e.batch(w));
      Out(BatchRecords(db, e, w, list, d.count), d.bucket,
          BatchTries(list, d.count),
          Deliveries(list[..d.count], true, e.batchMark(w), e), d.failed)
  }

  datatype Group = Group(watch: WatchId, ids: seq<AlertId>)

  function SendGroup(db: Db, b: Bucket, e: Env, delay: int, g: Group): Out {
    if !e.watchOk(g.watch) then Out(db, b, [], [], true)
    else if |g.ids| >= BATCH_THRESHOLD then Batch(db, b, e, delay, g.watch, g.ids)
    else Singles(db, b, e, g.ids)
  }

  /** Groups in the order the map iteration gave them; one that fails does not stop the others. */
  function Tick(db: Db, b: Bucket, e: Env, delay: int, groups: seq<Group>): Out
    decreases |groups|
  {
    if groups == [] then Out(db, b, [], [], false)
    else
      var o := SendGroup(db, b, e, delay, groups[0]);
      After(o, Tick(o.db, o.bucket, e, delay, groups[1..]))
  }

  function Summary(db: Db, b: Bucket, e: Env, ids: seq<AlertId>): Out {
    if ids == [] then Out(db, b, [], [], false)
    else
      var ok := Posted(e.summary);
      var db1 := RecordEach(db, ids, ok, e);
      var b1 := AfterPost(b, e.summary);
      if !ok then Out(db1, b1, Tries(ids, false), [], true)
      else
        Out(Mark(db1, ids, e.summaryMark, e.now), b1, Tries(ids, true),
            Deliveries(ids, false, e.summaryMark, e), false)
  }

  // ------------------------------------------------- what a tick does to the tables

  predicate Distinct(ids: seq<AlertId>) {
    forall i, j :: 0 <= i < j < |ids| ==> ids[i] != ids[j]
  }

  function Ids(ds: seq<Delivery>): (ids: seq<AlertId>)
    ensures |ids| == |ds|
  {
    seq(|ds|, i requires 0 <= i < |ds| => ds[i].id)
  }

  predicate Marks(ds: seq<Delivery>, id: AlertId) {
    exists d <- ds :: d.id == id && d.marked
  }

  predicate Rows(ds: seq<Delivery>, id: AlertId) {
    exists d <- ds :: d.id == id && d.rowKept
  }

  function KeptRow(t: Try, e: Env): seq<AttemptRow> {
    if e.attemptWrite(t.id).Lost? then [] else [AttemptRow(t.id, t.ok)]
  }

  /** The attempt rows that were written for these tries, in order. */
  function KeptRows(tried: seq<Try>, e: Env): seq<AttemptRow> {
    if tried == [] then [] else KeptRow(tried[0], e) + KeptRows(tried[1..], e)
  }

  function Landed(tried: seq<Try>): seq<AlertId> {
    if tried == [] then [] else (if tried[0].ok then [tried[0].id] else []) + Landed(tried[1..])
  }

  /** What is written for the alerts that were in a POST: a row with the outcome for each, unless the write is
      lost; for those that landed and are marked, the notified flag and the time of the tick; nothing else. */
  ghost predicate Effect(db: Db, o: Out, e: Env) {
    && o.db.used == db.used
    && o.db.alerts.Keys == db.alerts.Keys
    && (forall id <- db.alerts :: o.db.alerts[id] ==
          if Marks(o.sent, id) then db.alerts[id].(notified := true, notifiedAt := Some(e.now)) else db.alerts[id])
    && o.db.attempts == db.attempts + KeptRows(o.tried, e)
    && Ids(o.sent) == Landed(o.tried)
    && (forall d <- o.sent :: d.rowKept <==> !e.attemptWrite(d.id).Lost?)
  }

  /** The flags and success rows change by exactly the surviving records of the deliveries ds. */
  ghost predicate Recorded(db: Db, after: Db, ds: seq<Delivery>) {
    && after.used == db.used
    && after.alerts.Keys == db.alerts.Keys
    && (forall id <- db.alerts :: after.alerts[id].notified <==> db.alerts[id].notified || Marks(ds, id))
    && (forall id :: HasSuccess(after, id) <==> HasSuccess(db, id) || Rows(ds, id))
  }

  lemma {:induction false} KeptRowsHave(tried: seq<Try>, e: Env, id: AlertId)
    ensures AttemptRow(id, true) in KeptRows(tried, e) <==> id in Landed(tried) && !e.attemptWrite(id).Lost?
    decreases |tried|
  {
    if tried != [] {
      KeptRowsHave(tried[1..], e, id);
    }
  }

  lemma IdsHave(ds: seq<Delivery>, id: AlertId)
    ensures id in Ids(ds) <==> exists d <- ds :: d.id == id
  {
    if d :| d in ds && d.id == id {
      var i :| 0 <= i < |ds| && ds[i] == d;
      assert Ids(ds)[i] == id;
    }
  }

  lemma EffectRecords(db: Db, o: Out, e: Env)
    requires Effect(db, o, e)
    ensures Recorded(db, o.db, o.sent)
  {
    forall id
      ensures HasSuccess(o.db, id) <==> HasSuccess(db, id) || Rows(o.sent, id)
    {
      KeptRowsHave(o.tried, e, id);
      IdsHave(o.sent, id);
    }
  }

  lemma {:induction false} KeptRowsConcat(xs: seq<Try>, ys: seq<Try>, e: Env)
    ensures KeptRows(xs + ys, e) == KeptRows(xs, e) + KeptRows(ys, e)
    decreases |xs|
  {
    if xs == [] {
      assert xs + ys == ys;
    } else {
      assert (xs + ys)[1..] == xs[1..] + ys;
      KeptRowsConcat(xs[1..], ys, e);
      var row, more := KeptRow(xs[0], e), KeptRows(xs[1..], e);
      assert row + (more + KeptRows(ys, e)) == row + more + KeptRows(ys, e);
    }
  }

  lemma {:induction false} LandedConcat(xs: seq<Try>, ys: seq<Try>)
    ensures Landed(xs + ys) == Landed(xs) + Landed(ys)
    decreases |xs|
  {
    if xs == [] {
      assert xs + ys == ys;
    } else {
      assert (xs + ys)[1..] == xs[1..] + ys;
      LandedConcat(xs[1..], ys);
      var one, more := if xs[0].ok then [xs[0].id] else [], Landed(xs[1..]);
      assert one + (more + Landed(ys)) == one + more + Landed(ys);
    }
  }

  lemma MarksConcat(xs: seq<Delivery>, ys: seq<Delivery>, id: AlertId)
    ensures Marks(xs + ys, id) <==> Marks(xs, id) || Marks(ys, id)
    ensures Ids(xs + ys) == Ids(xs) + Ids(ys)
  {
  }

  lemma EffectAfter(db: Db, o: Out, rest: Out, e: Env)
    requires Effect(db, o, e) && Effect(o.db, rest, e)
    ensures Effect(db, After(o, rest), e)
  {
    KeptRowsConcat(o.tried, rest.tried, e);
    LandedConcat(o.tried, rest.tried);
    forall id
      ensures Marks(o.sent + rest.sent, id) <==> Marks(o.sent, id) || Marks(rest.sent, id)
      ensures Ids(o.sent + rest.sent) == Ids(o.sent) + Ids(rest.sent)
    {
      MarksConcat(o.sent, rest.sent, id);
    }
  }

  lemma ConcatAssociates(xs: seq<AttemptRow>, ys: seq<AttemptRow>, zs: seq<AttemptRow>)
    ensures xs + ys + zs == xs + (ys + zs)
  {
  }

  lemma TriesFirst(ids: seq<AlertId>, ok: bool, e: Env)
    requires ids != []
    ensures KeptRows(Tries(ids, ok), e) == KeptRow(Try(ids[0], ok), e) + KeptRows(Tries(ids[1..], ok), e)
  {
    assert Tries(ids, ok)[1..] == Tries(ids[1..], ok);
  }

  lemma {:induction false} RecordEachRows(db: Db, ids: seq<AlertId>, ok: bool, e: Env)
    ensures RecordEach(db, ids, ok, e) == db.(attempts := db.attempts + KeptRows(Tries(ids, ok), e))
    decreases |ids|
  {
    if ids == [] {
      assert db.attempts + [] == db.attempts;
    } else {
      var row := KeptRow(Try(ids[0], ok), e);
      var mid := db.(attempts := db.attempts + row);
      assert mid == Record(db, ids[0], ok, e);
      RecordEachRows(mid, ids[1..], ok, e);
      TriesFirst(ids, ok, e);
      ConcatAssociates(db.attempts, row, KeptRows(Tries(ids[1..], ok), e));
    }
  }

  lemma {:induction false} LandedTries(ids: seq<AlertId>, ok: bool)
    ensures Landed(Tries(ids, ok)) == if ok then ids else []
    decreases |ids|
  {
    if ids != [] {
      LandedTries(ids[1..], ok);
      assert Tries(ids, ok)[1..] == Tries(ids[1..], ok);
    }
  }

  lemma DeliveriesRecord(ids: seq<AlertId>, perWatch: bool, mark: Write, e: Env, id: AlertId)
    ensures var ds := Deliveries(ids, perWatch, mark, e);
            && (Marks(ds, id) <==> id in ids && !mark.Lost?)
            && (Rows(ds, id) <==> id in ids && !e.attemptWrite(id).Lost?)
  {
    var ds := Deliveries(ids, perWatch, mark, e);
    if id in ids {
      var i :| 0 <= i < |ids| && ids[i] == id;
      assert ds[i] in ds;
    }
  }

  /** Only ids of the list are delivered, each at most once, and none that had a recorded success. */
  ghost predicate Fresh(db: Db, ds: seq<Delivery>, ids: seq<AlertId>) {
    && Distinct(Ids(ds))
    && (forall d <- ds :: d.id in ids && d.perWatch && !HasSuccess(db, d.id))
  }

  lemma SingleEffect(db: Db, b: Bucket, e: Env, id: AlertId)
    ensures var o := Single(db, b, e, id);
            Effect(db, o, e) && Fresh(db, o.sent, [id])
  {
    var o := Single(db, b, e, id);
    if o.tried != [] {
      assert o.tried[1..] == [];
    }
    if o.sent != [] {
      var d := o.sent[0];
      assert o.sent == [d];
      forall x
        ensures Marks(o.sent, x) <==> x == id && d.marked
      {
        assert d in o.sent;
      }
    }
  }

  lemma FreshThen(db: Db, mid: Db, xs: seq<Delivery>, ys: seq<Delivery>, us: seq<AlertId>, vs: seq<AlertId>)
    requires Recorded(db, mid, xs) && Fresh(db, xs, us) && Fresh(mid, ys, vs)
    requires forall id :: id in us ==> id !in vs
    ensures Fresh(db, xs + ys, us + vs)
  {
    var zs := xs + ys;
    forall i, j | 0 <= i < j < |zs|
      ensures Ids(zs)[i] != Ids(zs)[j]
    {
      if j < |xs| {
        assert Ids(xs)[i] != Ids(xs)[j];
      } else if i >= |xs| {
        assert Ids(ys)[i - |xs|] != Ids(ys)[j - |xs|];
      } else {
        assert xs[i] in xs && ys[j - |xs|] in ys;
      }
    }
  }

  lemma FreshWiden(db: Db, ds: seq<Delivery>, us: seq<AlertId>, vs: seq<AlertId>)
    requires Fresh(db, ds, us) && forall id :: id in us ==> id in vs
    ensures Fresh(db, ds, vs)
  {
  }

  lemma {:induction false} SinglesEffect(db: Db, b: Bucket, e: Env, ids: seq<AlertId>)
    requires Distinct(ids)
    ensures var o := Singles(db, b, e, ids);
            Effect(db, o, e) && Fresh(db, o.sent, ids)
    decreases |ids|
  {
    if ids != [] {
      var o := Single(db, b, e, ids[0]);
      SingleEffect(db, b, e, ids[0]);
      if o.failed {
        FreshWiden(db, o.sent, [ids[0]], ids);
      } else {
        var rest := Singles(o.db, o.bucket, e, ids[1..]);
        SinglesEffect(o.db, o.bucket, e, ids[1..]);
        EffectAfter(db, o, rest, e);
        EffectRecords(db, o, e);
        FreshThen(db, o.db, o.sent, rest.sent, [ids[0]], ids[1..]);
        assert [ids[0]] + ids[1..] == ids;
      }
    }
  }

  lemma {:induction false} ToSendDistinct(db: Db, e: Env, ids: seq<AlertId>)
    requires Distinct(ids)
    ensures Distinct(ToSend(db, e, ids))
  {
    if ids != [] {
      ToSendDistinct(db, e, ids[1..]);
      ToSendHas(db, e, ids[1..]);
      assert ids[0] !in ToSend(db, e, ids[1..]);
    }
  }

  lemma BatchAttempts(db: Db, e: Env, list: seq<AlertId>, sent: nat)
    requires sent <= |list|
    ensures RecordEach(RecordEach(db, list[..sent], true, e), list[sent..], false, e)
         == db.(attempts := db.attempts + KeptRows(BatchTries(list, sent), e))
  {
    var landed, rest := Tries(list[..sent], true), Tries(list[sent..], false);
    RecordEachRows(db, list[..sent], true, e);
    RecordEachRows(db.(attempts := db.attempts + KeptRows(landed, e)), list[sent..], false, e);
    KeptRowsConcat(landed, rest, e);
    ConcatAssociates(db.attempts, KeptRows(landed, e), KeptRows(rest, e));
  }

  lemma BatchLanded(list: seq<AlertId>, sent: nat)
    requires sent <= |list|
    ensures Landed(BatchTries(list, sent)) == list[..sent]
  {
    LandedConcat(Tries(list[..sent], true), Tries(list[sent..], false));
    LandedTries(list[..sent], true);
    LandedTries(list[sent..], false);
  }

  /** The tables after a batch of which the first `sent` landed. */
  lemma BatchRecordsExactly(db: Db, e: Env, w: WatchId, list: seq<AlertId>, sent: nat)
    requires sent <= |list|
    ensures var t := BatchRecords(db, e, w, list, sent);
            && t.used == db.used
            && t.alerts.Keys == db.alerts.Keys
            && (forall id <- db.alerts :: t.alerts[id] ==
                  if id in list[..sent] && !e.batchMark(w).Lost?
                  then db.alerts[id].(notified := true, notifiedAt := Some(e.now)) else db.alerts[id])
            && t.attempts == db.attempts + KeptRows(BatchTries(list, sent), e)
  {
    BatchAttempts(db, e, list, sent);
  }

  lemma BatchFresh(db: Db, b: Bucket, e: Env, delay: int, w: WatchId, ids: seq<AlertId>)
    requires Distinct(ids)
    ensures Fresh(db, Batch(db, b, e, delay, w, ids).sent, ids)
  {
    var list := ToSend(db, e, ids);
    ToSendDistinct(db, e, ids);
    ToSendHas(db, e, ids);
    if list != [] {
      var d := Deliver(b, |list|, 0, delay, e.batch(w));
      DeliveredPrefix(b, |list|, 0, delay, e.batch(w));
      var ds := Deliveries(list[..d.count], true, e.batchMark(w), e);
      assert forall i :: 0 <= i < |ds| ==> ds[i].id == list[i] && list[i] in list;
    }
  }

  lemma DeliveriesAll(ids: seq<AlertId>, perWatch: bool, mark: Write, e: Env)
    ensures var ds := Deliveries(ids, perWatch, mark, e);
            && Ids(ds) == ids
            && (forall id :: Marks(ds, id) <==> id in ids && !mark.Lost?)
            && (forall d <- ds :: d.rowKept <==> !e.attemptWrite(d.id).Lost?)
  {
    forall id
      ensures Marks(Deliveries(ids, perWatch, mark, e), id) <==> id in ids && !mark.Lost?
    {
      DeliveriesRecord(ids, perWatch, mark, e, id);
    }
  }

  lemma BatchEffect(db: Db, b: Bucket, e: Env, delay: int, w: WatchId, ids: seq<AlertId>)
    ensures Effect(db, Batch(db, b, e, delay, w, ids), e)
  {
    var list := ToSend(db, e, ids);
    if list != [] {
      var d := Deliver(b, |list|, 0, delay, e.batch(w));
      DeliveredPrefix(b, |list|, 0, delay, e.batch(w));
      BatchRecordsExactly(db, e, w, list, d.count);
      BatchLanded(list, d.count);
      DeliveriesAll(list[..d.count], true, e.batchMark(w), e);
    }
  }

  function AllIds(groups: seq<Group>): seq<AlertId> {
    if groups == [] then [] else groups[0].ids + AllIds(groups[1..])
  }

  lemma GroupEffect(db: Db, b: Bucket, e: Env, delay: int, g: Group)
    requires Distinct(g.ids)
    ensures var o := SendGroup(db, b, e, delay, g);
            Effect(db, o, e) && Fresh(db, o.sent, g.ids)
  {
    if e.watchOk(g.watch) {
      if |g.ids| >= BATCH_THRESHOLD {
        BatchEffect(db, b, e, delay, g.watch, g.ids);
        BatchFresh(db, b, e, delay, g.watch, g.ids);
      } else {
        SinglesEffect(db, b, e, g.ids);
      }
    }
  }

  lemma {:induction false} TickEffect(db: Db, b: Bucket, e: Env, delay: int, groups: seq<Group>)
    requires Distinct(AllIds(groups))
    ensures var o := Tick(db, b, e, delay, groups);
            Effect(db, o, e) && Fresh(db, o.sent, AllIds(groups))
    decreases |groups|
  {
    if groups != [] {
      var g, rest := groups[0], groups[1..];
      var o := SendGroup(db, b, e, delay, g);
      DistinctParts(g.ids, AllIds(rest));
      GroupEffect(db, b, e, delay, g);
      var more := Tick(o.db, o.bucket, e, delay, rest);
      TickEffect(o.db, o.bucket, e, delay, rest);
      EffectAfter(db, o, more, e);
      EffectRecords(db, o, e);
      FreshThen(db, o.db, o.sent, more.sent, g.ids, AllIds(rest));
    }
  }

  lemma DistinctParts(xs: seq<AlertId>, ys: seq<AlertId>)
    requires Distinct(xs + ys)
    ensures Distinct(xs) && Distinct(ys)
    ensures forall id :: id in xs ==> id !in ys
  {
    var zs := xs + ys;
    assert forall i :: 0 <= i < |xs| ==> zs[i] == xs[i];
    assert forall j :: 0 <= j < |ys| ==> zs[|xs| + j] == ys[j];
  }

  /** A summary tries each pending alert once, with one outcome for all. */
  lemma SummaryEffect(db: Db, b: Bucket, e: Env, ids: seq<AlertId>)
    requires Distinct(ids)
    ensures var o := Summary(db, b, e, ids);
            && Effect(db, o, e)
            && Distinct(Ids(o.sent))
            && (forall d <- o.sent :: d.id in ids && !d.perWatch && d.marked == !e.summaryMark.Lost?)
            && o.tried == Tries(ids, Posted(e.summary))
            && o.bucket == (if ids == [] then b else AfterPost(b, e.summary))
  {
    RecordEachRows(db, ids, Posted(e.summary), e);
    LandedTries(ids, Posted(e.summary));
    DeliveriesAll(ids, false, e.summaryMark, e);
  }

  // ------------------------------------------------------- which alerts a tick tries

  /** Sent alone, the alert ends in an error. */
  predicate FailsAlone(db: Db, e: Env, id: AlertId) {
    || !e.checkOk(id)
    || (!HasSuccess(db, id) && (!e.listingOk(id) || !Posted(e.single(id)) || !e.markWrite(id).Committed?))
  }

  /** The alert may be tried: its watch is found, and if its group is sent one by one, none before it failed. */
  predicate Reached(db: Db, e: Env, g: Group, j: nat)
    requires j < |g.ids|
  {
    e.watchOk(g.watch) && (|g.ids| >= 5 || forall i :: 0 <= i < j ==> !FailsAlone(db, e, g.ids[i]))
  }

  predicate WasTried(tried: seq<Try>, id: AlertId) {
    Try(id, true) in tried || Try(id, false) in tried
  }

  /** A per-watch delivery, and which of its two records survived. */
  predicate DeliveredBy(d: Delivery, e: Env, mark: Write) {
    d.perWatch && (d.rowKept <==> !e.attemptWrite(d.id).Lost?) && (d.marked <==> !mark.Lost?)
  }

  /** What o is to have made of alert j of the group. */
  predicate AlertOutcome(db: Db, e: Env, g: Group, j: nat, o: Out)
    requires j < |g.ids|
  {
    var id := g.ids[j];
    var mark := if |g.ids| >= 5 then e.batchMark(g.watch) else e.markWrite(id);
    && (WasTried(o.tried, id) <==> Sendable(db, e, id) && Reached(db, e, g, j))
    && (|g.ids| < 5 ==> Try(id, !Posted(e.single(id))) !in o.tried)
    && (forall d <- o.sent :: d.id == id ==> DeliveredBy(d, e, mark))
  }

  /** Only these are tried or delivered. */
  predicate OnlyOf(o: Out, ids: seq<AlertId>) {
    (forall t <- o.tried :: t.id in ids) && (forall d <- o.sent :: d.id in ids)
  }

  lemma SingleOutcome(db: Db, b: Bucket, e: Env, id: AlertId)
    ensures var o := Single(db, b, e, id);
            && (o.failed <==> FailsAlone(db, e, id))
            && o.tried == (if Sendable(db, e, id) then [Try(id, Posted(e.single(id)))] else [])
            && o.sent == (if Sendable(db, e, id) && Posted(e.single(id))
                          then [Delivery(id, true, !e.attemptWrite(id).Lost?, !e.markWrite(id).Lost?)] else [])
            && o.bucket == (if Sendable(db, e, id) then AfterPost(b, e.single(id)) else b)
  {
  }

  lemma OthersUnchanged(db: Db, o: Out, e: Env, ids: seq<AlertId>, id: AlertId)
    requires Effect(db, o, e) && OnlyOf(o, ids) && id !in ids
    ensures HasSuccess(o.db, id) <==> HasSuccess(db, id)
    ensures Sendable(o.db, e, id) <==> Sendable(db, e, id)
    ensures FailsAlone(o.db, e, id) <==> FailsAlone(db, e, id)
  {
    EffectRecords(db, o, e);
    assert !Rows(o.sent, id);
  }

  lemma OnlyAfter(o: Out, rest: Out, xs: seq<AlertId>, ys: seq<AlertId>)
    requires OnlyOf(o, xs) && OnlyOf(rest, ys)
    ensures OnlyOf(After(o, rest), xs + ys)
  {
  }

  lemma {:induction false} SinglesOnly(db: Db, b: Bucket, e: Env, ids: seq<AlertId>)
    ensures OnlyOf(Singles(db, b, e, ids), ids)
    decreases |ids|
  {
    if ids != [] {
      var o := Single(db, b, e, ids[0]);
      SingleOutcome(db, b, e, ids[0]);
      assert OnlyOf(o, [ids[0]]);
      if !o.failed {
        SinglesOnly(o.db, o.bucket, e, ids[1..]);
        OnlyAfter(o, Singles(o.db, o.bucket, e, ids[1..]), [ids[0]], ids[1..]);
        assert [ids[0]] + ids[1..] == ids;
      }
    }
  }

  lemma OutcomeFirst(db: Db, e: Env, g: Group, j: nat, o: Out, rest: Out, later: seq<AlertId>)
    requires j < |g.ids| && OnlyOf(rest, later) && g.ids[j] !in later
    requires AlertOutcome(db, e, g, j, o)
    ensures AlertOutcome(db, e, g, j, After(o, rest))
  {
  }

  /** Alerts sent one by one: each that is sendable is tried unless one before it failed. */
  lemma {:induction false} SinglesOutcome(db: Db, b: Bucket, e: Env, g: Group, j: nat)
    requires Distinct(g.ids) && j < |g.ids| < 5 && e.watchOk(g.watch)
    ensures AlertOutcome(db, e, g, j, Singles(db, b, e, g.ids))
    decreases |g.ids|
  {
    var o := Single(db, b, e, g.ids[0]);
    SingleOutcome(db, b, e, g.ids[0]);
    if !o.failed {
      var rest := Singles(o.db, o.bucket, e, g.ids[1..]);
      if j == 0 {
        SinglesOnly(o.db, o.bucket, e, g.ids[1..]);
        OutcomeFirst(db, e, g, j, o, rest, g.ids[1..]);
      } else {
        SinglesOutcome(o.db, o.bucket, e, Group(g.watch, g.ids[1..]), j - 1);
        SingleEffect(db, b, e, g.ids[0]);
        OutcomeNext(db, e, g, j, o, rest);
      }
    }
  }

  lemma OutcomeNext(db: Db, e: Env, g: Group, j: nat, o: Out, rest: Out)
    requires 0 < j < |g.ids| < 5 && Distinct(g.ids) && !FailsAlone(db, e, g.ids[0])
    requires Effect(db, o, e) && OnlyOf(o, [g.ids[0]])
    requires AlertOutcome(o.db, e, Group(g.watch, g.ids[1..]), j - 1, rest)
    ensures AlertOutcome(db, e, g, j, After(o, rest))
  {
    forall i | 0 < i <= j
      ensures FailsAlone(o.db, e, g.ids[i]) <==> FailsAlone(db, e, g.ids[i])
    {
      OthersUnchanged(db, o, e, [g.ids[0]], g.ids[i]);
    }
    OthersUnchanged(db, o, e, [g.ids[0]], g.ids[j]);
    ReachedRest(db, o.db, e, g, j);
  }

  lemma ReachedRest(db: Db, mid: Db, e: Env, g: Group, j: nat)
    requires 0 < j < |g.ids| < 5 && !FailsAlone(db, e, g.ids[0])
    requires forall i :: 0 < i <= j ==> (FailsAlone(mid, e, g.ids[i]) <==> FailsAlone(db, e, g.ids[i]))
    ensures Reached(mid, e, Group(g.watch, g.ids[1..]), j - 1) <==> Reached(db, e, g, j)
  {
    if Reached(mid, e, Group(g.watch, g.ids[1..]), j - 1) {
      forall i | 0 <= i < j
        ensures !FailsAlone(db, e, g.ids[i])
      {
        assert i > 0 ==> !FailsAlone(mid, e, g.ids[1..][i - 1]);
      }
    }
  }

  lemma BatchListsAt(list: seq<AlertId>, n: nat, w: WatchId, e: Env)
    requires n <= |list|
    ensures var tried := BatchTries(list, n);
            |tried| == |list| && forall i :: 0 <= i < |list| ==> tried[i] == Try(list[i], i < n)
    ensures var sent := Deliveries(list[..n], true, e.batchMark(w), e);
            && |sent| == n
            && forall i :: 0 <= i < n ==>
                 sent[i] == Delivery(list[i], true, !e.attemptWrite(list[i]).Lost?, !e.batchMark(w).Lost?)
  {
    assert |Tries(list[..n], true)| == n;
  }

  /** A batch tries each sendable alert once, in order; those up to the delivered count land. */
  lemma BatchOutcome(db: Db, b: Bucket, e: Env, delay: int, w: WatchId, ids: seq<AlertId>)
    requires ToSend(db, e, ids) != []
    ensures var o := Batch(db, b, e, delay, w, ids);
            var list := ToSend(db, e, ids);
            var d := Deliver(b, |list|, 0, delay, e.batch(w));
            && |o.tried| == |list| && |o.sent| == d.count
            && (forall i :: 0 <= i < |list| ==> o.tried[i] == Try(list[i], i < d.count))
            && (forall i :: 0 <= i < d.count ==>
                  o.sent[i] == Delivery(list[i], true, !e.attemptWrite(list[i]).Lost?, !e.batchMark(w).Lost?))
            && o.bucket == d.bucket && o.failed == d.failed
  {
    var list := ToSend(db, e, ids);
    DeliveredPrefix(b, |list|, 0, delay, e.batch(w));
    BatchListsAt(list, Deliver(b, |list|, 0, delay, e.batch(w)).count, w, e);
  }

  lemma TriedOfList(list: seq<AlertId>, tried: seq<Try>, n: nat, id: AlertId)
    requires |tried| == |list| && forall i :: 0 <= i < |list| ==> tried[i] == Try(list[i], i < n)
    ensures WasTried(tried, id) <==> id in list
    ensures forall t <- tried :: t.id in list
  {
    if id in list {
      var i :| 0 <= i < |list| && list[i] == id;
      assert tried[i] in tried;
    }
  }

  lemma SentOfList(list: seq<AlertId>, sent: seq<Delivery>, w: WatchId, e: Env)
    requires |sent| <= |list|
    requires forall i :: 0 <= i < |sent| ==>
               sent[i] == Delivery(list[i], true, !e.attemptWrite(list[i]).Lost?, !e.batchMark(w).Lost?)
    ensures forall d <- sent :: d.id in list && DeliveredBy(d, e, e.batchMark(w))
  {
  }

  lemma BatchGroup(db: Db, b: Bucket, e: Env, delay: int, g: Group, j: nat)
    requires j < |g.ids| && |g.ids| >= 5 && e.watchOk(g.watch)
    ensures AlertOutcome(db, e, g, j, Batch(db, b, e, delay, g.watch, g.ids))
    ensures OnlyOf(Batch(db, b, e, delay, g.watch, g.ids), g.ids)
  {
    var o := Batch(db, b, e, delay, g.watch, g.ids);
    var list := ToSend(db, e, g.ids);
    ToSendHas(db, e, g.ids);
    if list != [] {
      var n := Deliver(b, |list|, 0, delay, e.batch(g.watch)).count;
      DeliveredPrefix(b, |list|, 0, delay, e.batch(g.watch));
      BatchOutcome(db, b, e, delay, g.watch, g.ids);
      TriedOfList(list, o.tried, n, g.ids[j]);
      SentOfList(list, o.sent, g.watch, e);
    }
  }

  lemma GroupOutcome(db: Db, b: Bucket, e: Env, delay: int, g: Group, j: nat)
    requires Distinct(g.ids) && j < |g.ids|
    ensures AlertOutcome(db, e, g, j, SendGroup(db, b, e, delay, g))
  {
    if e.watchOk(g.watch) {
      if |g.ids| >= 5 {
        BatchGroup(db, b, e, delay, g, j);
      } else {
        SinglesOutcome(db, b, e, g, j);
      }
    }
  }

  lemma GroupOnly(db: Db, b: Bucket, e: Env, delay: int, g: Group)
    ensures OnlyOf(SendGroup(db, b, e, delay, g), g.ids)
  {
    if e.watchOk(g.watch) {
      if |g.ids| >= 5 {
        BatchGroup(db, b, e, delay, g, 0);
      } else {
        SinglesOnly(db, b, e, g.ids);
      }
    }
  }

  lemma {:induction false} TickOnly(db: Db, b: Bucket, e: Env, delay: int, groups: seq<Group>)
    ensures OnlyOf(Tick(db, b, e, delay, groups), AllIds(groups))
    decreases |groups|
  {
    if groups != [] {
      var o := SendGroup(db, b, e, delay, groups[0]);
      GroupOnly(db, b, e, delay, groups[0]);
      TickOnly(o.db, o.bucket, e, delay, groups[1..]);
      OnlyAfter(o, Tick(o.db, o.bucket, e, delay, groups[1..]), groups[0].ids, AllIds(groups[1..]));
    }
  }

  lemma {:induction false} AllIdsHas(groups: seq<Group>, k: nat, j: nat)
    requires k < |groups| && j < |groups[k].ids|
    ensures groups[k].ids[j] in AllIds(groups)
    decreases k
  {
    if k > 0 {
      AllIdsHas(groups[1..], k - 1, j);
    }
  }

  lemma OutcomeLater(db: Db, e: Env, g: Group, j: nat, o: Out, rest: Out, before: seq<AlertId>)
    requires j < |g.ids| && Effect(db, o, e) && OnlyOf(o, before) && forall id :: id in before ==> id !in g.ids
    requires AlertOutcome(o.db, e, g, j, rest)
    ensures AlertOutcome(db, e, g, j, After(o, rest))
  {
    forall i | 0 <= i < |g.ids|
      ensures FailsAlone(o.db, e, g.ids[i]) <==> FailsAlone(db, e, g.ids[i])
      ensures Sendable(o.db, e, g.ids[i]) <==> Sendable(db, e, g.ids[i])
    {
      OthersUnchanged(db, o, e, before, g.ids[i]);
    }
  }

  /** In a tick an alert is posted if and only if it is sendable, its watch is found, and either five or more are
      pending for that watch or none before it in the group failed; what fails in one group touches no other. */
  lemma {:induction false} TickOutcome(db: Db, b: Bucket, e: Env, delay: int, groups: seq<Group>, k: nat, j: nat)
    requires Distinct(AllIds(groups)) && k < |groups| && j < |groups[k].ids|
    ensures AlertOutcome(db, e, groups[k], j, Tick(db, b, e, delay, groups))
    decreases |groups|
  {
    var g, rest := groups[0], groups[1..];
    var o := SendGroup(db, b, e, delay, g);
    var more := Tick(o.db, o.bucket, e, delay, rest);
    DistinctParts(g.ids, AllIds(rest));
    GroupEffect(db, b, e, delay, g);
    GroupOnly(db, b, e, delay, g);
    if k == 0 {
      GroupOutcome(db, b, e, delay, g, j);
      TickOnly(o.db, o.bucket, e, delay, rest);
      OutcomeFirst(db, e, g, j, o, more, AllIds(rest));
    } else {
      TickOutcome(o.db, o.bucket, e, delay, rest, k - 1, j);
      forall i | 0 <= i < |groups[k].ids|
        ensures groups[k].ids[i] !in g.ids
      {
        AllIdsHas(rest, k - 1, i);
      }
      OutcomeLater(db, e, groups[k], j, o, more, g.ids);
    }
  }

  // ------------------------------------------------------------------- runs

  function OfWatch(db: Db, ids: seq<AlertId>, w: WatchId): seq<AlertId> {
    if ids == [] then []
    else (if ids[0] in db.alerts && db.alerts[ids[0]].watch == w then [ids[0]] else []) + OfWatch(db, ids[1..], w)
  }

  lemma {:induction false} OfWatchHas(db: Db, ids: seq<AlertId>, w: WatchId)
    ensures forall id :: id in OfWatch(db, ids, w) <==> id in ids && id in db.alerts && db.alerts[id].watch == w
    decreases |ids|
  {
    if ids != [] {
      OfWatchHas(db, ids[1..], w);
      assert forall id :: id in ids <==> id == ids[0] || id in ids[1..];
    }
  }

  function GroupsOf(db: Db, pending: seq<AlertId>, order: seq<WatchId>): seq<Group> {
    seq(|order|, i requires 0 <= i < |order| => Group(order[i], OfWatch(db, pending, order[i])))
  }

  /** order is some order of the watches that have pending alerts. */
  ghost predicate IsOrder(db: Db, pending: seq<AlertId>, order: seq<WatchId>) {
    && (forall i, j :: 0 <= i < j < |order| ==> order[i] != order[j])
    && (forall w :: w in order <==> OfWatch(db, pending, w) != [])
  }

  lemma {:induction false} OfWatchDistinct(db: Db, ids: seq<AlertId>, w: WatchId)
    requires Distinct(ids)
    ensures Distinct(OfWatch(db, ids, w))
  {
    if ids != [] {
      OfWatchDistinct(db, ids[1..], w);
      OfWatchHas(db, ids[1..], w);
    }
  }

  lemma DistinctConcat(xs: seq<AlertId>, ys: seq<AlertId>)
    requires Distinct(xs) && Distinct(ys) && forall id :: id in xs ==> id !in ys
    ensures Distinct(xs + ys)
  {
    var zs := xs + ys;
    forall i, j | 0 <= i < j < |zs|
      ensures zs[i] != zs[j]
    {
      if i < |xs| && j >= |xs| {
        assert zs[i] in xs && zs[j] in ys;
      }
    }
  }

  lemma {:induction false} GroupsDistinct(db: Db, pending: seq<AlertId>, order: seq<WatchId>)
    requires Distinct(pending) && forall i, j :: 0 <= i < j < |order| ==> order[i] != order[j]
    ensures Distinct(AllIds(GroupsOf(db, pending, order)))
    ensures forall id :: id in AllIds(GroupsOf(db, pending, order)) ==>
              id in pending && id in db.alerts && db.alerts[id].watch in order
    decreases |order|
  {
    if order != [] {
      GroupsDistinct(db, pending, order[1..]);
      OfWatchDistinct(db, pending, order[0]);
      OfWatchHas(db, pending, order[0]);
      assert GroupsOf(db, pending, order)[1..] == GroupsOf(db, pending, order[1..]);
      DistinctConcat(OfWatch(db, pending, order[0]), AllIds(GroupsOf(db, pending, order[1..])));
    }
  }

  /** Everything delivered so far, oldest first, is in log. */
  datatype World = World(db: Db, bucket: Bucket, log: seq<Delivery>)

  datatype Act =
    | RunTick(e: Env, delay: int, pending: seq<AlertId>, order: seq<WatchId>)
    | RunSummary(e: Env, pending: seq<AlertId>)
    | Create(id: AlertId, w: WatchId, l: ListingId, score: int, now: int)
    | Dismiss(ids: seq<AlertId>, at: Option<int>)
    | Delete(w: WatchId)

  ghost predicate Enabled(s: World, a: Act) {
    match a
    case RunTick(_, _, pending, order) => IsPendingList(s.db, pending) && IsOrder(s.db, pending, order)
    case RunSummary(_, pending) => IsPendingList(s.db, pending)
    case Create(id, _, _, _, _) => id !in s.db.used
    case _ => true
  }

  ghost function Step(s: World, a: Act): World
    requires Enabled(s, a)
  {
    match a
    case RunTick(e, delay, pending, order) =>
      var o := Tick(s.db, s.bucket, e, delay, GroupsOf(s.db, pending, order));
      World(o.db, o.bucket, s.log + o.sent)
    case RunSummary(e, pending) =>
      var o := Summary(s.db, s.bucket, e, pending);
      World(o.db, o.bucket, s.log + o.sent)
    case Create(id, w, l, score, now) => s.(db := InsertAlert(s.db, id, w, l, score, now))
    case Dismiss(ids, at) => s.(db := SetDismissed(s.db, ids, at))
    case Delete(w) => s.(db := DeleteWatch(s.db, w))
  }

  ghost predicate ValidRun(s: World, acts: seq<Act>)
    decreases |acts|
  {
    |acts| == 0 || (Enabled(s, acts[0]) && ValidRun(Step(s, acts[0]), acts[1..]))
  }

  ghost function Exec(s: World, acts: seq<Act>): World
    requires ValidRun(s, acts)
    decreases |acts|
  {
    if |acts| == 0 then s else Exec(Step(s, acts[0]), acts[1..])
  }

  ghost predicate Delivered(log: seq<Delivery>, id: AlertId) {
    exists d <- log :: d.id == id
  }

  /** The surviving records of a delivery are still in the tables, unless the alert is gone. */
  ghost predicate Remembered(db: Db, d: Delivery) {
    && d.id in db.used
    && (d.id in db.alerts ==> (d.marked ==> db.alerts[d.id].notified) && (d.rowKept ==> HasSuccess(db, d.id)))
  }

  ghost predicate Inv(s: World) {
    && s.db.alerts.Keys <= s.db.used
    && (forall d <- s.log :: Remembered(s.db, d))
    && (forall id <- s.db.alerts :: s.db.alerts[id].notified ==> Delivered(s.log, id))
    && (forall id :: HasSuccess(s.db, id) ==> Delivered(s.log, id))
    && Redeliveries(s.log)
  }

  /** A later delivery of the same alert found no mark; a per-watch one found no success row either. */
  ghost predicate Redeliveries(log: seq<Delivery>) {
    forall i, j :: 0 <= i < j < |log| && log[i].id == log[j].id ==>
      !log[i].marked && (log[j].perWatch ==> !log[i].rowKept)
  }

  lemma TickKeepsInv(s: World, after: Db, b: Bucket, ds: seq<Delivery>)
    requires Inv(s) && Recorded(s.db, after, ds) && Distinct(Ids(ds))
    requires forall d <- ds :: d.id in s.db.alerts && !s.db.alerts[d.id].notified
    requires forall d <- ds :: d.perWatch ==> !HasSuccess(s.db, d.id)
    ensures Inv(World(after, b, s.log + ds))
  {
    var log := s.log + ds;
    forall d | d in log
      ensures Remembered(after, d)
    {
      if d in ds {
        assert d.marked ==> Marks(ds, d.id);
        assert d.rowKept ==> Rows(ds, d.id);
      } else {
        assert Remembered(s.db, d);
      }
    }
    forall id | Delivered(s.log, id) || Marks(ds, id) || Rows(ds, id)
      ensures Delivered(log, id)
    {
      if Delivered(s.log, id) {
        var d :| d in s.log && d.id == id;
        assert d in log;
      } else {
        var d :| d in ds && d.id == id;
        assert d in log;
      }
    }
    forall x, y | 0 <= x < y < |ds|
      ensures ds[x].id != ds[y].id
    {
      assert Ids(ds)[x] != Ids(ds)[y];
    }
    forall i, j | 0 <= i < j < |log| && log[i].id == log[j].id
      ensures !log[i].marked && (log[j].perWatch ==> !log[i].rowKept)
    {
      if i < |s.log| <= j {
        assert log[j] in ds && Remembered(s.db, log[i]);
      }
    }
  }

  lemma StepInv(s: World, a: Act)
    requires Inv(s) && Enabled(s, a)
    ensures Inv(Step(s, a))
  {
    match a
    case RunTick(e, delay, pending, order) =>
      var groups := GroupsOf(s.db, pending, order);
      GroupsDistinct(s.db, pending, order);
      TickEffect(s.db, s.bucket, e, delay, groups);
      var o := Tick(s.db, s.bucket, e, delay, groups);
      EffectRecords(s.db, o, e);
      TickKeepsInv(s, o.db, o.bucket, o.sent);
    case RunSummary(e, pending) =>
      SummaryEffect(s.db, s.bucket, e, pending);
      var o := Summary(s.db, s.bucket, e, pending);
      EffectRecords(s.db, o, e);
      TickKeepsInv(s, o.db, o.bucket, o.sent);
    case Delete(w) =>
      var t := Step(s, a);
      assert forall id <- t.db.alerts :: HasSuccess(t.db, id) <==> HasSuccess(s.db, id);
      forall d | d in t.log
        ensures Remembered(t.db, d)
      {
        assert Remembered(s.db, d);
      }
    case _ =>
      var t := Step(s, a);
      forall d | d in t.log
        ensures Remembered(t.db, d)
      {
        assert Remembered(s.db, d);
      }
  }

  lemma {:induction false} RunInv(s: World, acts: seq<Act>)
    requires Inv(s) && ValidRun(s, acts)
    ensures Inv(Exec(s, acts))
    decreases |acts|
  {
    if |acts| != 0 {
      StepInv(s, acts[0]);
      RunInv(Step(s, acts[0]), acts[1..]);
    }
  }

  const START := World(EMPTY, Bucket(1, None), [])

  /** Over every run: an alert delivered once is delivered again only if its notified mark was
      lost the first time, and by a per-watch tick only if its success row was lost too. */
  lemma RedeliveredOnlyIfBothLost(acts: seq<Act>, i: nat, j: nat)
    requires ValidRun(START, acts)
    requires i < j < |Exec(START, acts).log| && Exec(START, acts).log[i].id == Exec(START, acts).log[j].id
    ensures !Exec(START, acts).log[i].marked
    ensures Exec(START, acts).log[j].perWatch ==> !Exec(START, acts).log[i].rowKept
  {
    RunInv(START, acts);
  }

  // A tick in which every read and POST works, and what becomes of its writes is as given.
  const NO_HEADERS := Headers(None, None, None)
  const ANSWERED := Chunk(0, Status2xx(NO_HEADERS), 0, TransportError, 0, false, false, false)

  function Writes(row: Write, mark: Write): Env {
    Env(0, (w: WatchId) => true, (id: AlertId) => true, (id: AlertId) => true,
        (id: AlertId) => row, (id: AlertId) => mark, (w: WatchId) => mark, mark,
        (id: AlertId) => ANSWERED, (w: WatchId) => (i: nat) => ANSWERED, ANSWERED)
  }

  const PENDING := Db(map[0 := Alert(5, 6, 90, false, None, 0, None)], [], {0})

  lemma RunThree(s: World, a: Act, b: Act, c: Act)
    requires Enabled(s, a) && Enabled(Step(s, a), b) && Enabled(Step(Step(s, a), b), c)
    ensures ValidRun(s, [a, b, c]) && Exec(s, [a, b, c]) == Step(Step(Step(s, a), b), c)
  {
    assert [a, b, c][1..] == [b, c] && [b, c][1..] == [c] && [c][1..] == [];
    assert Exec(Step(Step(s, a), b), [c]) == Step(Step(Step(s, a), b), c);
    assert Exec(Step(s, a), [b, c]) == Exec(Step(Step(s, a), b), [c]);
  }

  lemma TickLosingBoth(log: seq<Delivery>)
    ensures var s, a := World(PENDING, Bucket(1, None), log), RunTick(Writes(Lost, Lost), 0, [0], [5]);
            Enabled(s, a) && Step(s, a) == s.(log := log + [Delivery(0, true, false, false)])
  {
    var e := Writes(Lost, Lost);
    assert OfWatch(PENDING, [0], 5) == [0] by {
      assert [0][1..] == [];
    }
    forall w
      ensures w in [5] <==> OfWatch(PENDING, [0], w) != []
    {
      OfWatchHas(PENDING, [0], w);
      assert w == 5 ==> 0 in OfWatch(PENDING, [0], w);
    }
    assert 0 in [0];
    var groups := GroupsOf(PENDING, [0], [5]);
    assert groups == [Group(5, [0])] && groups[1..] == [];
    assert !HasSuccess(PENDING, 0);
    assert Singles(PENDING, Bucket(1, None), e, [0])
        == Out(PENDING, Bucket(1, None), [Try(0, true)], [Delivery(0, true, false, false)], true);
    assert Tick(PENDING, Bucket(1, None), e, 0, groups).sent == [Delivery(0, true, false, false)];
  }

  lemma CreatedPending()
    ensures Enabled(START, Create(0, 5, 6, 90, 0))
    ensures Step(START, Create(0, 5, 6, 90, 0)) == World(PENDING, Bucket(1, None), [])
  {
  }

  /** The bound is the best there is: with both writes lost, the next tick delivers the alert again. */
  lemma BothLostRedelivers()
    ensures var tick := RunTick(Writes(Lost, Lost), 0, [0], [5]);
            var acts := [Create(0, 5, 6, 90, 0), tick, tick];
            ValidRun(START, acts)
            && Exec(START, acts).log == [Delivery(0, true, false, false), Delivery(0, true, false, false)]
  {
    var tick := RunTick(Writes(Lost, Lost), 0, [0], [5]);
    CreatedPending();
    TickLosingBoth([]);
    TickLosingBoth([Delivery(0, true, false, false)]);
    RunThree(START, Create(0, 5, 6, 90, 0), tick, tick);
  }

  /** In summary mode a lost mark is enough: the success row is kept, and not consulted. */
  lemma MarkLostRepeatsSummary()
    ensures var tick := RunSummary(Writes(Committed, Lost), [0]);
            var acts := [Create(0, 5, 6, 90, 0), tick, tick];
            ValidRun(START, acts)
            && Exec(START, acts).log == [Delivery(0, false, true, false), Delivery(0, false, true, false)]
  {
    var tick := RunSummary(Writes(Committed, Lost), [0]);
    CreatedPending();
    var s1 := Step(START, Create(0, 5, 6, 90, 0));
    assert 0 in [0] && [0][1..] == [];
    var s2 := Step(s1, tick);
    assert s2.db == InsertAttempt(PENDING, 0, true);
    assert s2.log == [Delivery(0, false, true, false)];
    RunThree(START, Create(0, 5, 6, 90, 0), tick, tick);
  }

  /** Over every run, in both modes: an alert in the notified state, or with a recorded success,
      was covered by a successful send. */
  lemma NotifiedWasDelivered(acts: seq<Act>, id: AlertId)
    requires ValidRun(START, acts)
    requires var db := Exec(START, acts).db;
             (id in db.alerts && db.alerts[id].notified) || HasSuccess(db, id)
    ensures exists d <- Exec(START, acts).log :: d.id == id
  {
    RunInv(START, acts);
  }
}
