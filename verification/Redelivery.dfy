/**
 When an alert can still be delivered, the first time or again: which states of its
 row and its attempts leave a way.
 */
module Redelivery {
  import opened Wrappers
  import opened AlertTables
  import opened Discord
  import opened AlertDelivery

  predicate NoCreate(acts: seq<Act>) {
    forall i :: 0 <= i < |acts| ==> !acts[i].Create?
  }

  /** The entries from a place in the log on deliver the alert, by a per-watch tick or a summary. */
  ghost predicate DeliversFrom(log: seq<Delivery>, from: nat, id: AlertId, perWatch: bool) {
    exists i :: from <= i < |log| && log[i].id == id && log[i].perWatch == perWatch
  }

  /** Some later run, creating nothing, delivers the alert. */
  ghost predicate CanDeliver(s: World, id: AlertId, perWatch: bool) {
    exists acts ::
      ValidRun(s, acts) && NoCreate(acts) && DeliversFrom(Exec(s, acts).log, |s.log|, id, perWatch)
  }

  /** The alert is there and not marked; a per-watch tick also asks that no success is recorded. */
  ghost predicate Deliverable(db: Db, id: AlertId, perWatch: bool) {
    id in db.alerts && !db.alerts[id].notified && (perWatch ==> !HasSuccess(db, id))
  }

  // ----------------------------------------------------- once lost, lost for good

  lemma NoMatch(log: seq<Delivery>, sent: seq<Delivery>, id: AlertId, perWatch: bool)
    requires forall d <- sent :: !(d.id == id && d.perWatch == perWatch)
    ensures log <= log + sent && !DeliversFrom(log + sent, |log|, id, perWatch)
  {
    forall i | |log| <= i < |log + sent|
      ensures !((log + sent)[i].id == id && (log + sent)[i].perWatch == perWatch)
    {
      assert (log + sent)[i] == sent[i - |log|] && sent[i - |log|] in sent;
    }
  }

  lemma Match(log: seq<Delivery>, sent: seq<Delivery>, d: Delivery)
    requires d in sent
    ensures DeliversFrom(log + sent, |log|, d.id, d.perWatch)
  {
    var i :| 0 <= i < |sent| && sent[i] == d;
    assert (log + sent)[|log| + i] == d;
  }

  lemma EffectKeeps(db: Db, after: Db, ds: seq<Delivery>, id: AlertId, perWatch: bool)
    requires Recorded(db, after, ds) && !Deliverable(db, id, perWatch)
    ensures !Deliverable(after, id, perWatch)
  {
  }

  lemma TickSends(s: World, a: Act)
    requires Enabled(s, a) && a.RunTick?
    ensures var o := Tick(s.db, s.bucket, a.e, a.delay, GroupsOf(s.db, a.pending, a.order));
            && Recorded(s.db, o.db, o.sent)
            && forall d <- o.sent :: d.perWatch && Deliverable(s.db, d.id, true)
  {
    GroupsDistinct(s.db, a.pending, a.order);
    TickEffect(s.db, s.bucket, a.e, a.delay, GroupsOf(s.db, a.pending, a.order));
    EffectRecords(s.db, Tick(s.db, s.bucket, a.e, a.delay, GroupsOf(s.db, a.pending, a.order)), a.e);
  }

  lemma TickKeeps(s: World, a: Act, id: AlertId, perWatch: bool)
    requires Enabled(s, a) && a.RunTick? && !Deliverable(s.db, id, perWatch)
    ensures !Deliverable(Step(s, a).db, id, perWatch)
    ensures s.log <= Step(s, a).log && !DeliversFrom(Step(s, a).log, |s.log|, id, perWatch)
  {
    TickSends(s, a);
    var o := Tick(s.db, s.bucket, a.e, a.delay, GroupsOf(s.db, a.pending, a.order));
    EffectKeeps(s.db, o.db, o.sent, id, perWatch);
    NoMatch(s.log, o.sent, id, perWatch);
  }

  lemma SummaryKeeps(s: World, a: Act, id: AlertId, perWatch: bool)
    requires Enabled(s, a) && a.RunSummary? && !Deliverable(s.db, id, perWatch)
    ensures !Deliverable(Step(s, a).db, id, perWatch)
    ensures s.log <= Step(s, a).log && !DeliversFrom(Step(s, a).log, |s.log|, id, perWatch)
  {
    SummaryEffect(s.db, s.bucket, a.e, a.pending);
    var o := Summary(s.db, s.bucket, a.e, a.pending);
    EffectRecords(s.db, o, a.e);
    EffectKeeps(s.db, o.db, o.sent, id, perWatch);
    NoMatch(s.log, o.sent, id, perWatch);
  }

  lemma StepKeeps(s: World, a: Act, id: AlertId, perWatch: bool)
    requires Enabled(s, a) && !a.Create? && !Deliverable(s.db, id, perWatch)
    ensures !Deliverable(Step(s, a).db, id, perWatch)
    ensures s.log <= Step(s, a).log && !DeliversFrom(Step(s, a).log, |s.log|, id, perWatch)
  {
    if a.RunTick? {
      TickKeeps(s, a, id, perWatch);
    } else if a.RunSummary? {
      SummaryKeeps(s, a, id, perWatch);
    }
  }

  lemma {:induction false} NeverDelivered(s: World, acts: seq<Act>, id: AlertId, perWatch: bool)
    requires ValidRun(s, acts) && NoCreate(acts) && !Deliverable(s.db, id, perWatch)
    ensures s.log <= Exec(s, acts).log && !DeliversFrom(Exec(s, acts).log, |s.log|, id, perWatch)
    decreases |acts|
  {
    if |acts| != 0 {
      assert !acts[0].Create?;
      var t := Step(s, acts[0]);
      StepKeeps(s, acts[0], id, perWatch);
      NeverDelivered(t, acts[1..], id, perWatch);
      var log := Exec(s, acts).log;
      forall i | |s.log| <= i < |log|
        ensures !(log[i].id == id && log[i].perWatch == perWatch)
      {
        if i < |t.log| {
          assert log[i] == t.log[i];
        }
      }
    }
  }

  // ------------------------------------------------------- the tick that delivers

  lemma DistinctCons(x: nat, rest: seq<nat>)
    requires Distinct(rest) && x !in rest
    ensures Distinct([x] + rest) && forall y :: y in [x] + rest <==> y == x || y in rest
  {
  }

  lemma {:induction false} Listed(ids: set<nat>) returns (list: seq<nat>)
    ensures Distinct(list) && forall id :: id in list <==> id in ids
    decreases ids
  {
    list := [];
    if ids != {} {
      var x :| x in ids;
      var rest := Listed(ids - {x});
      DistinctCons(x, rest);
      list := [x] + rest;
    }
  }

  /** The pending alerts, in a list that begins with the one asked for. */
  lemma PendingFirst(db: Db, id: AlertId) returns (pending: seq<AlertId>)
    requires id in db.alerts && !db.alerts[id].notified
    ensures IsPendingList(db, pending) && pending != [] && pending[0] == id
  {
    var rest := Listed(set p <- db.alerts | !db.alerts[p].notified && p != id);
    DistinctCons(id, rest);
    pending := [id] + rest;
  }

  /** Their watches, beginning with that of the first. */
  lemma WatchFirst(db: Db, pending: seq<AlertId>) returns (order: seq<WatchId>)
    requires IsPendingList(db, pending) && pending != []
    ensures IsOrder(db, pending, order) && order != [] && order[0] == db.alerts[pending[0]].watch
  {
    assert forall p :: p in pending ==> p in db.alerts;
    var w := db.alerts[pending[0]].watch;
    var rest := Listed(set p | p in pending && db.alerts[p].watch != w :: db.alerts[p].watch);
    DistinctCons(w, rest);
    order := [w] + rest;
    forall v
      ensures v in order <==> OfWatch(db, pending, v) != []
    {
      OfWatchHas(db, pending, v);
      assert v in order <==> v == w || v in rest;
      if OfWatch(db, pending, v) != [] {
        assert OfWatch(db, pending, v)[0] in pending;
      }
      if v in order {
        var p :| p in pending && db.alerts[p].watch == v;
        assert p in OfWatch(db, pending, v);
      }
    }
  }

  lemma BatchDelivers(db: Db, b: Bucket, e: Env, w: WatchId, ids: seq<AlertId>, id: AlertId)
    requires e == Writes(Lost, Lost) && id in ids && !HasSuccess(db, id)
    ensures exists d <- Batch(db, b, e, 0, w, ids).sent :: d.id == id && d.perWatch
  {
    var list := ToSend(db, e, ids);
    ToSendHas(db, e, ids);
    assert id in list;
    var d := Deliver(b, |list|, 0, 0, e.batch(w));
    DeliveredPrefix(b, |list|, 0, 0, e.batch(w));
    assert d.count == |list| && list[..d.count] == list;
    var i :| 0 <= i < |list| && list[i] == id;
    var sent := Batch(db, b, e, 0, w, ids).sent;
    assert sent[i].id == id && sent[i] in sent;
  }

  lemma GroupDelivers(db: Db, b: Bucket, e: Env, g: Group)
    requires e == Writes(Lost, Lost) && g.ids != [] && !HasSuccess(db, g.ids[0])
    ensures exists d <- SendGroup(db, b, e, 0, g).sent :: d.id == g.ids[0] && d.perWatch
  {
    if |g.ids| >= BATCH_THRESHOLD {
      BatchDelivers(db, b, e, g.watch, g.ids, g.ids[0]);
    } else {
      assert Singles(db, b, e, g.ids).sent == [Delivery(g.ids[0], true, false, false)];
    }
  }

  lemma OneActDelivers(s: World, a: Act, sent: seq<Delivery>, d: Delivery)
    requires Enabled(s, a) && !a.Create? && Step(s, a).log == s.log + sent && d in sent
    ensures CanDeliver(s, d.id, d.perWatch)
  {
    var t := Step(s, a);
    Match(s.log, sent, d);
    var acts := [a];
    assert acts[1..] == [] && ValidRun(t, []) && Exec(t, []) == t;
    assert ValidRun(s, acts) && Exec(s, acts) == t && NoCreate(acts);
  }

  lemma TickDelivers(s: World, id: AlertId)
    requires Deliverable(s.db, id, true)
    ensures CanDeliver(s, id, true)
  {
    var e := Writes(Lost, Lost);
    var pending := PendingFirst(s.db, id);
    var order := WatchFirst(s.db, pending);
    var a := RunTick(e, 0, pending, order);
    var groups := GroupsOf(s.db, pending, order);
    assert groups[0].ids[0] == id;
    GroupDelivers(s.db, s.bucket, e, groups[0]);
    var first := SendGroup(s.db, s.bucket, e, 0, groups[0]).sent;
    var d :| d in first && d.id == id && d.perWatch;
    var sent := Tick(s.db, s.bucket, e, 0, groups).sent;
    assert first <= sent && d in sent;
    OneActDelivers(s, a, sent, d);
  }

  lemma SummaryDelivers(s: World, id: AlertId)
    requires Deliverable(s.db, id, false)
    ensures CanDeliver(s, id, false)
  {
    var e := Writes(Lost, Lost);
    var pending := PendingFirst(s.db, id);
    var a := RunSummary(e, pending);
    var sent := Summary(s.db, s.bucket, e, pending).sent;
    assert sent[0].id == id && !sent[0].perWatch && sent[0] in sent;
    OneActDelivers(s, a, sent, sent[0]);
  }

  /** In every state: an alert can still be delivered by a per-watch tick, delivered before or not, if and
      only if its row is there, unmarked, and without a recorded success; by a summary, if and only if
      its row is there and unmarked. */
  lemma DeliverableExactly(s: World, id: AlertId, perWatch: bool)
    ensures CanDeliver(s, id, perWatch) <==> Deliverable(s.db, id, perWatch)
  {
    if Deliverable(s.db, id, perWatch) {
      if perWatch {
        TickDelivers(s, id);
      } else {
        SummaryDelivers(s, id);
      }
    } else {
      forall acts | ValidRun(s, acts) && NoCreate(acts)
        ensures !DeliversFrom(Exec(s, acts).log, |s.log|, id, perWatch)
      {
        NeverDelivered(s, acts, id, perWatch);
      }
    }
  }
}
