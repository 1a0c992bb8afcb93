/**
 The engine's send methods over a store and a notifier. Each is proved equal to
 its function in AlertDelivery: the tables, the bucket, what was posted, and
 whether an error is returned.
 */
module AlertProcessor {
  import opened Wrappers
  import opened AlertTables
  import opened Discord
  import opened AlertDelivery

  /** The tables, the bucket and the POSTs answered 2xx are those of o. */
  twostate predicate Did(s: AlertStore, n: DiscordNotifier, o: Out)
    reads s, n
  {
    s.View() == o.db && n.State() == o.bucket && n.posted == old(n.posted) + Ids(o.sent)
  }

  method RecordAttempt(s: AlertStore, id: AlertId, ok: bool, e: Env)
    modifies s
    ensures s.View() == Record(old(s.View()), id, ok, e)
  {
    var failed := s.InsertNotificationAttempt(id, ok, e.attemptWrite(id));
  }

  method SendSingle(s: AlertStore, n: DiscordNotifier, e: Env, id: AlertId) returns (failed: bool)
    modifies s, n
    ensures var o := Single(old(s.View()), old(n.State()), e, id); Did(s, n, o) && failed == o.failed
    ensures failed <==> FailsAlone(old(s.View()), e, id)
    ensures var posts := Sendable(old(s.View()), e, id);
            var ok := Posted(e.single(id));
            && n.posted == old(n.posted) + (if posts && ok then [id] else [])
            && s.attempts == old(s.attempts)
                 + (if posts && !e.attemptWrite(id).Lost? then [AttemptRow(id, ok)] else [])
            && s.alerts.Keys == old(s.alerts).Keys
            && forall x <- s.alerts :: s.alerts[x] ==
                 if x == id && posts && ok && !e.markWrite(id).Lost?
                 then old(s.alerts)[x].(notified := true, notifiedAt := Some(e.now)) else old(s.alerts)[x]
  {
    if !e.checkOk(id) {
      return true;
    }
    var already := s.HasSuccessfulNotification(id);
    if already {
      return false;
    }
    if !e.listingOk(id) {
      return true;
    }
    var ok := n.SendAlert(id, e.single(id));
    RecordAttempt(s, id, ok, e);
    if !ok {
      return true;
    }
    failed := s.MarkAlertsNotified([id], e.now, e.markWrite(id));
  }

  /** Sending one by one from a state on, after `done` was delivered, ends in all. */
  ghost predicate SinglesLead(db: Db, b: Bucket, e: Env, ids: seq<AlertId>, done: Out, all: Out) {
    all == After(done, Singles(db, b, e, ids))
  }

  lemma SinglesAdvance(db: Db, b: Bucket, e: Env, ids: seq<AlertId>, i: nat, done: Out, all: Out)
    requires i < |ids| && SinglesLead(db, b, e, ids[i..], done, all)
    ensures var o := Single(db, b, e, ids[i]);
            && Ids(After(done, o).sent) == Ids(done.sent) + Ids(o.sent)
            && if o.failed then all == After(done, o)
               else SinglesLead(o.db, o.bucket, e, ids[i + 1..], After(done, o), all)
  {
    assert ids[i..][0] == ids[i] && ids[i..][1..] == ids[i + 1..];
    var o := Single(db, b, e, ids[i]);
    AfterAssociates(done, o, Singles(o.db, o.bucket, e, ids[i + 1..]));
    IdsConcat(done.sent, o.sent);
  }

  lemma AfterAssociates(x: Out, y: Out, z: Out)
    ensures After(x, After(y, z)) == After(After(x, y), z)
  {
    assert x.sent + (y.sent + z.sent) == x.sent + y.sent + z.sent;
    assert x.tried + (y.tried + z.tried) == x.tried + y.tried + z.tried;
  }

  method SendSingles(s: AlertStore, n: DiscordNotifier, e: Env, ids: seq<AlertId>) returns (failed: bool)
    modifies s, n
    ensures var o := Singles(old(s.View()), old(n.State()), e, ids); Did(s, n, o) && failed == o.failed
  {
    ghost var all := Singles(s.View(), n.State(), e, ids);
    assert ids[0..] == ids;
    ghost var done := Out(s.View(), n.State(), [], [], false);
    var i := 0;
    while i < |ids|
      invariant 0 <= i <= |ids|
      invariant n.posted == old(n.posted) + Ids(done.sent)
      invariant SinglesLead(s.View(), n.State(), e, ids[i..], done, all)
    {
      ghost var o := Single(s.View(), n.State(), e, ids[i]);
      SinglesAdvance(s.View(), n.State(), e, ids, i, done, all);
      failed := SendSingle(s, n, e, ids[i]);
      done := After(done, o);
      if failed {
        return;
      }
      i := i + 1;
    }
    failed := false;
  }

  method RecordAll(s: AlertStore, ids: seq<AlertId>, ok: bool, e: Env)
    modifies s
    ensures s.View() == RecordEach(old(s.View()), ids, ok, e)
  {
    var i := 0;
    while i < |ids|
      invariant 0 <= i <= |ids|
      invariant RecordEach(s.View(), ids[i..], ok, e) == RecordEach(old(s.View()), ids, ok, e)
    {
      assert ids[i..][0] == ids[i] && ids[i..][1..] == ids[i + 1..];
      RecordAttempt(s, ids[i], ok, e);
      i := i + 1;
    }
  }

  lemma ToSendNext(db: Db, e: Env, ids: seq<AlertId>, i: nat, kept: seq<AlertId>)
    requires i < |ids|
    ensures kept + ToSend(db, e, ids[i..])
         == (if Sendable(db, e, ids[i]) then kept + [ids[i]] else kept) + ToSend(db, e, ids[i + 1..])
  {
    assert ids[i..][0] == ids[i] && ids[i..][1..] == ids[i + 1..];
    var rest := ToSend(db, e, ids[i + 1..]);
    assert kept + ([ids[i]] + rest) == kept + [ids[i]] + rest;
    assert [] + rest == rest;
  }

  method CollectBatch(s: AlertStore, e: Env, ids: seq<AlertId>) returns (toSend: seq<AlertId>)
    ensures toSend == ToSend(s.View(), e, ids)
  {
    toSend := [];
    var i := 0;
    ghost var all := ToSend(s.View(), e, ids);
    assert ids[0..] == ids && [] + all == all;
    while i < |ids|
      invariant 0 <= i <= |ids|
      invariant toSend + ToSend(s.View(), e, ids[i..]) == all
    {
      ToSendNext(s.View(), e, ids, i, toSend);
      var already := s.HasSuccessfulNotification(ids[i]);
      if e.checkOk(ids[i]) && !already && e.listingOk(ids[i]) {
        toSend := toSend + [ids[i]];
      }
      i := i + 1;
    }
  }

  /** What the engine asks to be marked (delivered) is, in order, exactly what was in a chunk posted
      with 2xx; it is a prefix of the send list; and each id of the list gets one attempt, a
      successful one exactly on that prefix. */
  method SendBatch(s: AlertStore, n: DiscordNotifier, e: Env, w: WatchId, ids: seq<AlertId>)
    returns (failed: bool, ghost toSend: seq<AlertId>, ghost delivered: seq<AlertId>)
    modifies s, n
    ensures var o := Batch(old(s.View()), old(n.State()), e, n.interChunkDelay, w, ids);
            Did(s, n, o) && failed == o.failed
    ensures toSend == ToSend(old(s.View()), e, ids)
    ensures delivered <= toSend && n.posted == old(n.posted) + delivered
    ensures s.attempts
         == old(s.attempts) + KeptRows(BatchTries(toSend, |delivered|), e)
    ensures s.alerts.Keys == old(s.alerts).Keys
    ensures forall id <- s.alerts :: s.alerts[id] ==
              if id in delivered && !e.batchMark(w).Lost?
              then old(s.alerts)[id].(notified := true, notifiedAt := Some(e.now)) else old(s.alerts)[id]
  {
    ghost var db := s.View();
    var list := CollectBatch(s, e, ids);
    toSend, delivered := list, [];
    if |list| == 0 {
      assert Tries([], true) + Tries([], false) == [];
      return false, toSend, delivered;
    }
    var sent;
    sent, failed := n.SendBatchAlert(list, e.batch(w));
    if sent < 0 {
      sent := 0;
    }
    if sent > |list| {
      sent := |list|;
    }
    delivered := list[..sent];
    RecordAll(s, list[..sent], true, e);
    RecordAll(s, list[sent..], false, e);
    BatchRecordsExactly(db, e, w, list, sent);
    if sent > 0 {
      var markFailed := s.MarkAlertsNotified(list[..sent], e.now, e.batchMark(w));
    }
    assert Ids(Deliveries(list[..sent], true, e.batchMark(w), e)) == list[..sent];
  }

  method SendAlerts(s: AlertStore, n: DiscordNotifier, e: Env, w: WatchId, ids: seq<AlertId>)
    returns (failed: bool)
    requires e.watchOk(w)
    modifies s, n
    ensures var o := SendGroup(old(s.View()), old(n.State()), e, n.interChunkDelay, Group(w, ids));
            Did(s, n, o) && failed == o.failed
  {
    if |ids| >= BATCH_THRESHOLD {
      ghost var toSend, delivered;
      failed, toSend, delivered := SendBatch(s, n, e, w, ids);
    } else {
      failed := SendSingles(s, n, e, ids);
    }
  }

  lemma OfWatchSnoc(db: Db, ids: seq<AlertId>, id: AlertId, w: WatchId)
    ensures OfWatch(db, ids + [id], w) ==
            OfWatch(db, ids, w) + (if id in db.alerts && db.alerts[id].watch == w then [id] else [])
  {
    if ids == [] {
      assert [id][1..] == [] && ids + [id] == [id];
    } else {
      assert (ids + [id])[1..] == ids[1..] + [id];
      OfWatchSnoc(db, ids[1..], id, w);
    }
  }

  ghost predicate Grouped(db: Db, pending: seq<AlertId>, grouped: map<WatchId, seq<AlertId>>) {
    && (forall w :: w in grouped <==> OfWatch(db, pending, w) != [])
    && (forall w <- grouped :: grouped[w] == OfWatch(db, pending, w))
  }

  lemma GroupOne(db: Db, pending: seq<AlertId>, grouped: map<WatchId, seq<AlertId>>, id: AlertId)
    requires Grouped(db, pending, grouped) && id in db.alerts
    ensures var w := db.alerts[id].watch;
            Grouped(db, pending + [id], grouped[w := (if w in grouped then grouped[w] else []) + [id]])
  {
    forall w
      ensures OfWatch(db, pending + [id], w)
           == OfWatch(db, pending, w) + (if db.alerts[id].watch == w then [id] else [])
    {
      OfWatchSnoc(db, pending, id, w);
    }
  }

  /** One entry per watch with a pending alert, holding its alerts in list order. */
  method GroupByWatch(s: AlertStore, pending: seq<AlertId>) returns (grouped: map<WatchId, seq<AlertId>>)
    requires forall id :: id in pending ==> id in s.alerts
    ensures forall w :: w in grouped <==> OfWatch(s.View(), pending, w) != []
    ensures forall w <- grouped :: grouped[w] == OfWatch(s.View(), pending, w)
  {
    grouped := map[];
    var i := 0;
    while i < |pending|
      invariant 0 <= i <= |pending|
      invariant Grouped(s.View(), pending[..i], grouped)
    {
      var id := pending[i];
      assert pending[..i + 1] == pending[..i] + [id];
      GroupOne(s.View(), pending[..i], grouped, id);
      var w := s.alerts[id].watch;
      grouped := grouped[w := (if w in grouped then grouped[w] else []) + [id]];
      i := i + 1;
    }
    assert pending[..|pending|] == pending;
  }

  lemma {:induction false} TickSnoc(db: Db, b: Bucket, e: Env, delay: int, groups: seq<Group>, g: Group)
    ensures var o := Tick(db, b, e, delay, groups);
            var x := SendGroup(o.db, o.bucket, e, delay, g);
            Tick(db, b, e, delay, groups + [g]) == After(o, x).(failed := false)
    decreases |groups|
  {
    if groups == [] {
      assert [g][1..] == [] && groups + [g] == [g];
    } else {
      var o := SendGroup(db, b, e, delay, groups[0]);
      assert (groups + [g])[1..] == groups[1..] + [g];
      TickSnoc(o.db, o.bucket, e, delay, groups[1..], g);
      var mid := Tick(o.db, o.bucket, e, delay, groups[1..]);
      AfterAssociates(o, mid, SendGroup(mid.db, mid.bucket, e, delay, g));
    }
  }

  lemma GroupsSnoc(db: Db, pending: seq<AlertId>, order: seq<WatchId>, w: WatchId)
    ensures GroupsOf(db, pending, order + [w]) == GroupsOf(db, pending, order) + [Group(w, OfWatch(db, pending, w))]
  {
  }

  lemma IdsConcat(xs: seq<Delivery>, ys: seq<Delivery>)
    ensures Ids(xs + ys) == Ids(xs) + Ids(ys)
  {
  }

  /** The tick over the groups of `order` has been done, from db and b, delivering sent. */
  ghost predicate TickDone(db: Db, b: Bucket, e: Env, delay: int, pending: seq<AlertId>, order: seq<WatchId>,
                           after: Db, bucket: Bucket, sent: seq<Delivery>)
  {
    var o := Tick(db, b, e, delay, GroupsOf(db, pending, order));
    o.db == after && o.bucket == bucket && o.sent == sent
  }

  lemma TickDoneSnoc(db: Db, b: Bucket, e: Env, delay: int, pending: seq<AlertId>, order: seq<WatchId>,
                     after: Db, bucket: Bucket, sent: seq<Delivery>, w: WatchId)
    requires TickDone(db, b, e, delay, pending, order, after, bucket, sent)
    ensures var o := SendGroup(after, bucket, e, delay, Group(w, OfWatch(db, pending, w)));
            TickDone(db, b, e, delay, pending, order + [w], o.db, o.bucket, sent + o.sent)
  {
    GroupsSnoc(db, pending, order, w);
    TickSnoc(db, b, e, delay, GroupsOf(db, pending, order), Group(w, OfWatch(db, pending, w)));
  }

  /** One more group of the tick: looked up, then sent. A failure is counted, not returned. */
  method ProcessGroup(s: AlertStore, n: DiscordNotifier, e: Env, w: WatchId, ids: seq<AlertId>,
                      ghost db: Db, ghost b: Bucket, ghost pending: seq<AlertId>, ghost order: seq<WatchId>,
                      ghost sent: seq<Delivery>)
    returns (ghost sentNow: seq<Delivery>)
    requires ids == OfWatch(db, pending, w)
    requires TickDone(db, b, e, n.interChunkDelay, pending, order, s.View(), n.State(), sent)
    modifies s, n
    ensures TickDone(db, b, e, n.interChunkDelay, pending, order + [w], s.View(), n.State(), sent + sentNow)
    ensures n.posted == old(n.posted) + Ids(sentNow)
  {
    sentNow := SendGroup(s.View(), n.State(), e, n.interChunkDelay, Group(w, ids)).sent;
    TickDoneSnoc(db, b, e, n.interChunkDelay, pending, order, s.View(), n.State(), sent, w);
    if e.watchOk(w) {
      var failed := SendAlerts(s, n, e, w, ids);
    }
  }

  /** The groups are taken in any order, as a map iteration gives them. */
  method ProcessGroups(s: AlertStore, n: DiscordNotifier, e: Env, pending: seq<AlertId>,
                       grouped: map<WatchId, seq<AlertId>>)
    returns (ghost order: seq<WatchId>, ghost sent: seq<Delivery>)
    requires forall w <- grouped :: grouped[w] == OfWatch(s.View(), pending, w)
    modifies s, n
    ensures forall i, j :: 0 <= i < j < |order| ==> order[i] != order[j]
    ensures forall w :: w in order <==> w in grouped
    ensures TickDone(old(s.View()), old(n.State()), e, n.interChunkDelay, pending, order, s.View(), n.State(), sent)
    ensures n.posted == old(n.posted) + Ids(sent)
  {
    ghost var db, b := s.View(), n.State();
    order, sent := [], [];
    var left := grouped.Keys;
    while left != {}
      invariant left <= grouped.Keys
      invariant forall w :: w in order <==> w in grouped && w !in left
      invariant forall i, j :: 0 <= i < j < |order| ==> order[i] != order[j]
      invariant TickDone(db, b, e, n.interChunkDelay, pending, order, s.View(), n.State(), sent)
      invariant n.posted == old(n.posted) + Ids(sent)
      decreases left
    {
      var w :| w in left;
      ghost var sentNow := ProcessGroup(s, n, e, w, grouped[w], db, b, pending, order, sent);
      IdsConcat(sent, sentNow);
      sent := sent + sentNow;
      order := order + [w];
      left := left - {w};
    }
  }

  /** A per-watch tick. listed is what ListPendingAlerts returned, None its error; order is the
      order in which the groups were taken. */
  method ProcessAlerts(s: AlertStore, n: DiscordNotifier, e: Env, listed: Option<seq<AlertId>>)
    returns (failed: bool, ghost order: seq<WatchId>)
    requires listed.Some? ==> IsPendingList(s.View(), listed.value)
    modifies s, n
    ensures failed == listed.None?
    ensures failed ==> s.View() == old(s.View()) && n.posted == old(n.posted)
    ensures !failed ==>
              && IsOrder(old(s.View()), listed.value, order)
              && Did(s, n, Tick(old(s.View()), old(n.State()), e, n.interChunkDelay,
                                GroupsOf(old(s.View()), listed.value, order)))
  {
    order := [];
    if listed.None? {
      return true, order;
    }
    var grouped := GroupByWatch(s, listed.value);
    ghost var sent;
    order, sent := ProcessGroups(s, n, e, listed.value, grouped);
    failed := false;
  }

  /** A summary tick: one embed for all, then one attempt record per pending alert, and all or none marked. */
  method ProcessSummary(s: AlertStore, n: DiscordNotifier, e: Env, pending: seq<AlertId>, embed: Payload)
    returns (failed: bool)
    requires pending != []
    modifies s, n
    ensures var o := Summary(old(s.View()), old(n.State()), e, pending);
            s.View() == o.db && n.State() == o.bucket && failed == o.failed
    ensures failed <==> !Posted(e.summary)
    ensures n.posted == old(n.posted) + (if failed then [] else [embed])
  {
    var ok := n.SendAlert(embed, e.summary);
    RecordAll(s, pending, ok, e);
    if !ok {
      return true;
    }
    var markFailed := s.MarkAlertsNotified(pending, e.now, e.summaryMark);
    failed := false;
  }
}
