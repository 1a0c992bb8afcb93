/**
 The Discord webhook notifier: the bucket state kept from response headers, one
 post with its bounded retry, and the chunked batch send.

 A payload is identified by a number. What the network does is the argument
 Chunk: for each chunk, when it is sent, what each of the two possible POSTs is
 answered, and whether the context ends one of the three waits.
 */
module Discord {
  import opened Wrappers

  type Payload = nat

  const MAX_EMBEDS := 10
  const MAX_429_ATTEMPTS := 2

  /** The rate headers of a response that parsed: a count, a relative and an absolute reset. */
  datatype Headers = Headers(remaining: Option<int>, resetAfter: Option<int>, resetAbs: Option<int>)

  /** retryAfter is what parseRetryAfter makes of the headers; 0 when there is none. */
  datatype Reply =
    | TransportError
    | Status2xx(h: Headers)
    | Status429(h: Headers, global: bool, retryAfter: int)
    | StatusOther(h: Headers)

  datatype Chunk = Chunk(
    now: int,
    first: Reply, firstAt: int,
    second: Reply, secondAt: int,
    waitCancelled: bool, delayCancelled: bool, retryCancelled: bool)

  /** The bucket: how many posts are left and when it refills; None is Go's zero time. */
  datatype Bucket = Bucket(remaining: int, resetAt: Option<int>)

  // ------------------------------------------------------------ specification

  function Absorb(b: Bucket, reply: Reply, at: int): Bucket {
    if reply.TransportError? then b
    else
      var b1 := if reply.h.remaining.Some? then b.(remaining := reply.h.remaining.value) else b;
      if reply.h.resetAfter.Some? then b1.(resetAt := Some(at + reply.h.resetAfter.value))
      else if reply.h.resetAbs.Some? then b1.(resetAt := reply.h.resetAbs)
      else b1
  }

  predicate MustWait(b: Bucket, now: int) {
    b.remaining <= 0 && b.resetAt.Some? && now < b.resetAt.value
  }

  /** An empty bucket holds the next post back exactly until the reset the reply named, relative to its own arrival
      or, failing that, absolute; a reply that names none leaves the old one, and one with a post left never waits. */
  lemma WaitsForNamedReset(b: Bucket, reply: Reply, at: int, now: int)
    requires !reply.TransportError? && reply.h.remaining.Some?
    ensures var h := reply.h;
            MustWait(Absorb(b, reply, at), now) <==>
              && h.remaining.value <= 0
              && if h.resetAfter.Some? then now - at < h.resetAfter.value
                 else if h.resetAbs.Some? then now < h.resetAbs.value
                 else b.resetAt.Some? && now < b.resetAt.value
  {
  }

  /** A 429 that is tried again: not the global one, with a usable Retry-After, slept out in full. */
  predicate Retried(c: Chunk) {
    c.first.Status429? && !c.first.global && c.first.retryAfter > 0 && !c.retryCancelled
  }

  predicate Posted(c: Chunk) {
    c.first.Status2xx? || (Retried(c) && c.second.Status2xx?)
  }

  function AfterPost(b: Bucket, c: Chunk): Bucket {
    var b1 := Absorb(b, c.first, c.firstAt);
    if Retried(c) then Absorb(b1, c.second, c.secondAt) else b1
  }

  predicate Reached(b: Bucket, i: nat, delay: int, c: Chunk) {
    && !(MustWait(b, c.now) && c.waitCancelled)
    && !(i > 0 && delay > 0 && c.delayCancelled)
  }

  datatype Sent = Sent(bucket: Bucket, count: nat, failed: bool)

  /** What is left of a batch from chunk i on: chunks land one after the other until one does not. */
  function Deliver(b: Bucket, n: nat, i: nat, delay: int, net: nat -> Chunk): Sent
    decreases n
  {
    if n == 0 then Sent(b, 0, false)
    else if !Reached(b, i, delay, net(i)) then Sent(b, 0, true)
    else if !Posted(net(i)) then Sent(AfterPost(b, net(i)), 0, true)
    else
      var k := Min(MAX_EMBEDS, n);
      var rest := Deliver(AfterPost(b, net(i)), n - k, i + 1, delay, net);
      rest.(count := k + rest.count)
  }

  /** Delivering n more alerts from a state on, after `sent` landed, ends in all. */
  ghost predicate Leads(b: Bucket, n: nat, i: nat, delay: int, net: nat -> Chunk, sent: nat, all: Sent) {
    var rest := Deliver(b, n, i, delay, net);
    all == rest.(count := sent + rest.count)
  }

  lemma LeadsOn(b: Bucket, n: nat, i: nat, delay: int, net: nat -> Chunk, sent: nat, all: Sent)
    requires n > 0 && Leads(b, n, i, delay, net, sent, all)
    ensures !Reached(b, i, delay, net(i)) ==> all == Sent(b, sent, true)
    ensures Reached(b, i, delay, net(i)) && !Posted(net(i)) ==> all == Sent(AfterPost(b, net(i)), sent, true)
    ensures Reached(b, i, delay, net(i)) && Posted(net(i)) ==>
              var k := Min(MAX_EMBEDS, n); Leads(AfterPost(b, net(i)), n - k, i + 1, delay, net, sent + k, all)
  {
  }

  /** What landed is whole chunks of the front of the batch, and an error is reported exactly when some did not. */
  lemma {:induction false} DeliveredPrefix(b: Bucket, n: nat, i: nat, delay: int, net: nat -> Chunk)
    ensures var d := Deliver(b, n, i, delay, net);
            && d.count <= n
            && (d.failed <==> d.count < n)
            && (d.count == n || d.count % 10 == 0)
            && (forall j :: 0 <= j < d.count ==> Posted(net(i + j / 10)))
            && (d.failed ==> !Posted(net(i + d.count / 10))
                             || net(i + d.count / 10).waitCancelled
                             || net(i + d.count / 10).delayCancelled)
    decreases n
  {
    if n > 0 && Reached(b, i, delay, net(i)) && Posted(net(i)) {
      var k := Min(MAX_EMBEDS, n);
      DeliveredPrefix(AfterPost(b, net(i)), n - k, i + 1, delay, net);
      var rest := Deliver(AfterPost(b, net(i)), n - k, i + 1, delay, net);
      forall j | 0 <= j < k + rest.count
        ensures Posted(net(i + j / MAX_EMBEDS))
      {
        if j >= k {
          assert Posted(net(i + 1 + (j - k) / MAX_EMBEDS));
        }
      }
    }
  }

  lemma DeliverCounts(b: Bucket, n: nat, i: nat, delay: int, net: nat -> Chunk)
    ensures var d := Deliver(b, n, i, delay, net); d.count <= n && (d.failed <==> d.count < n)
  {
    DeliveredPrefix(b, n, i, delay, net);
  }

  function Flatten(chunks: seq<seq<Payload>>): seq<Payload> {
    if chunks == [] then [] else chunks[0] + Flatten(chunks[1..])
  }

  lemma {:induction false} FlattenAppend(chunks: seq<seq<Payload>>, c: seq<Payload>)
    ensures Flatten(chunks + [c]) == Flatten(chunks) + c
  {
    if chunks == [] {
      assert [c][1..] == [];
    } else {
      assert (chunks + [c])[1..] == chunks[1..] + [c];
      FlattenAppend(chunks[1..], c);
    }
  }

  // ----------------------------------------------------------- implementation

  /** Full chunks of n, the last one possibly shorter, none empty. */
  predicate WellChunked(chunks: seq<seq<Payload>>, n: nat) {
    forall c :: 0 <= c < |chunks| ==> 0 < |chunks[c]| <= n && (c + 1 < |chunks| ==> |chunks[c]| == n)
  }

  /** From chunk i on, the chunks hold the alerts from `from` on. */
  ghost predicate Holds(chunks: seq<seq<Payload>>, i: nat, alerts: seq<Payload>, from: nat, n: nat) {
    && i <= |chunks| && from <= |alerts|
    && WellChunked(chunks, n)
    && Flatten(chunks[i..]) == alerts[from..]
  }

  lemma NextChunk(chunks: seq<seq<Payload>>, i: nat, alerts: seq<Payload>, from: nat, n: nat)
    requires i < |chunks| && Holds(chunks, i, alerts, from, n)
    ensures |chunks[i]| == Min(n, |alerts| - from) > 0
    ensures alerts[..from] + chunks[i] == alerts[..from + |chunks[i]|]
    ensures Holds(chunks, i + 1, alerts, from + |chunks[i]|, n)
  {
    assert chunks[i..][0] == chunks[i] && chunks[i..][1..] == chunks[i + 1..];
    var rest := Flatten(chunks[i + 1..]);
    assert chunks[i] + rest == alerts[from..];
    if i + 1 == |chunks| {
      assert chunks[i + 1..] == [];
    }
    assert rest == alerts[from..][|chunks[i]|..];
    assert chunks[i] == alerts[from..][..|chunks[i]|];
  }

  lemma NoChunkLeft(chunks: seq<seq<Payload>>, alerts: seq<Payload>, from: nat, n: nat)
    requires Holds(chunks, |chunks|, alerts, from, n)
    ensures from == |alerts|
  {
    assert |alerts[from..]| == 0;
  }

  /** Splits a list into full chunks of n and one last shorter one, losing and reordering nothing. */
  method ChunkAlerts(alerts: seq<Payload>, n: nat) returns (chunks: seq<seq<Payload>>)
    requires n >= 1
    ensures Flatten(chunks) == alerts
    ensures WellChunked(chunks, n)
  {
    chunks := [];
    var i := 0;
    while i < |alerts|
      invariant Flatten(chunks) == alerts[..Min(i, |alerts|)]
      invariant WellChunked(chunks, n)
      invariant i <= |alerts| && chunks != [] ==> |chunks[|chunks| - 1]| == n
      decreases |alerts| - i
    {
      var end := Min(i + n, |alerts|);
      FlattenAppend(chunks, alerts[i..end]);
      assert alerts[..i] + alerts[i..end] == alerts[..end];
      chunks := chunks + [alerts[i..end]];
      i := i + n;
    }
    assert alerts[..|alerts|] == alerts;
  }

  class DiscordNotifier {
    const interChunkDelay: int
    var remaining: int
    var resetAt: Option<int>
    /** Every payload that was in a POST answered 2xx, in order, and the number of POSTs made. */
    ghost var posted: seq<Payload>
    ghost var requests: nat

    ghost function State(): Bucket
      reads this
    {
      Bucket(remaining, resetAt)
    }

    constructor (delay: int)
      ensures interChunkDelay == delay && State() == Bucket(1, None) && posted == [] && requests == 0
    {
      interChunkDelay := delay;
      remaining, resetAt := 1, None;
      posted, requests := [], 0;
    }

    method Update(reply: Reply, at: int)
      modifies this`remaining, this`resetAt
      ensures State() == Absorb(old(State()), reply, at)
      ensures remaining == if !reply.TransportError? && reply.h.remaining.Some? then reply.h.remaining.value
                           else old(remaining)
      ensures resetAt == if reply.TransportError? then old(resetAt)
                         else if reply.h.resetAfter.Some? then Some(at + reply.h.resetAfter.value)
                         else if reply.h.resetAbs.Some? then reply.h.resetAbs
                         else old(resetAt)
    {
      if reply.TransportError? {
        return;
      }
      if reply.h.remaining.Some? {
        remaining := reply.h.remaining.value;
      }
      if reply.h.resetAfter.Some? {
        resetAt := Some(at + reply.h.resetAfter.value);
        return;
      }
      if reply.h.resetAbs.Some? {
        resetAt := reply.h.resetAbs;
      }
    }

    /** Either returns with capacity in the bucket or past its reset, or the context ended. */
    method WaitForBucket(now: int, cancelled: bool) returns (waited: int, ok: bool)
      ensures ok <==> !(MustWait(State(), now) && cancelled)
      ensures ok ==> State().remaining > 0 || State().resetAt.None? || State().resetAt.value <= now + waited
      ensures waited >= 0 && (waited > 0 ==> MustWait(State(), now) && now + waited == State().resetAt.value)
    {
      if remaining > 0 || resetAt.None? {
        return 0, true;
      }
      var wait := resetAt.value - now;
      if wait <= 0 {
        return 0, true;
      }
      if cancelled {
        return 0, false;
      }
      return wait, true;
    }

    method Handle429(global: bool, retryAfter: int, attempt: nat, cancelled: bool) returns (retry: bool)
      ensures retry <==> !global && attempt < 2 && retryAfter > 0 && !cancelled
    {
      if global {
        return false;
      }
      if attempt >= MAX_429_ATTEMPTS {
        return false;
      }
      if retryAfter <= 0 {
        return false;
      }
      return !cancelled;
    }

    method PostOnce(embeds: seq<Payload>, reply: Reply, at: int, attempt: nat, cancelled: bool)
      returns (retry: bool, ok: bool)
      modifies this
      ensures State() == Absorb(old(State()), reply, at)
      ensures requests == old(requests) + 1
      ensures ok <==> reply.Status2xx?
      ensures posted == old(posted) + (if ok then embeds else [])
      ensures retry <==> reply.Status429? && !reply.global && attempt < 2
                         && reply.retryAfter > 0 && !cancelled
    {
      requests := requests + 1;
      Update(reply, at);
      if reply.Status2xx? {
        posted := posted + embeds;
        return false, true;
      }
      ok := false;
      retry := false;
      if reply.Status429? {
        retry := Handle429(reply.global, reply.retryAfter, attempt, cancelled);
      }
    }

    /** At most two POSTs, at most one of them answered 2xx; success is exactly that one. The error
        of running out of attempts in the loop itself (spent) never happens. */
    method Post(embeds: seq<Payload>, c: Chunk) returns (ok: bool, ghost spent: bool)
      modifies this
      ensures ok <==> Posted(c)
      ensures ok <==> c.first.Status2xx?
                      || (c.first.Status429? && !c.first.global && c.first.retryAfter > 0 && !c.retryCancelled
                          && c.second.Status2xx?)
      ensures State() == AfterPost(old(State()), c)
      ensures posted == old(posted) + (if ok then embeds else [])
      ensures requests == old(requests) + (if Retried(c) then 2 else 1)
      ensures !spent
    {
      spent := false;
      var attempt := 1;
      while attempt <= MAX_429_ATTEMPTS
        invariant 1 <= attempt <= 2
        invariant attempt == 1 ==> State() == old(State()) && requests == old(requests)
        invariant attempt == 2 ==> Retried(c) && State() == Absorb(old(State()), c.first, c.firstAt)
                                   && requests == old(requests) + 1
        invariant posted == old(posted)
      {
        var retry;
        if attempt == 1 {
          retry, ok := PostOnce(embeds, c.first, c.firstAt, attempt, c.retryCancelled);
        } else {
          retry, ok := PostOnce(embeds, c.second, c.secondAt, attempt, c.retryCancelled);
        }
        if ok {
          return;
        }
        if !retry {
          return;
        }
        attempt := attempt + 1;
      }
      ok, spent := false, true;
    }

    method SendAlert(alert: Payload, c: Chunk) returns (ok: bool)
      modifies this
      ensures ok <==> Posted(c)
      ensures State() == AfterPost(old(State()), c)
      ensures posted == old(posted) + (if ok then [alert] else [])
    {
      ghost var spent;
      ok, spent := Post([alert], c);
    }

    /** One pass of the batch loop: wait for the bucket, then between chunks, then post. */
    method SendChunk(chunk: seq<Payload>, i: nat, c: Chunk) returns (ok: bool)
      modifies this
      ensures ok <==> Reached(old(State()), i, interChunkDelay, c) && Posted(c)
      ensures State() == if Reached(old(State()), i, interChunkDelay, c) then AfterPost(old(State()), c)
                         else old(State())
      ensures posted == old(posted) + (if ok then chunk else [])
    {
      var waited, ready := WaitForBucket(c.now, c.waitCancelled);
      if !ready {
        return false;
      }
      if i > 0 && interChunkDelay > 0 && c.delayCancelled {
        return false;
      }
      ghost var spent;
      ok, spent := Post(chunk, c);
    }

    /** Posts the chunks of a batch in order until one does not land. */
    method SendChunks(chunks: seq<seq<Payload>>, net: nat -> Chunk, ghost alerts: seq<Payload>, ghost all: Sent)
      returns (sent: nat, failed: bool)
      requires Holds(chunks, 0, alerts, 0, MAX_EMBEDS)
      requires Leads(State(), |alerts|, 0, interChunkDelay, net, 0, all)
      modifies this
      ensures sent <= |alerts| && Sent(State(), sent, failed) == all
      ensures posted == old(posted) + alerts[..sent]
    {
      sent := 0;
      var i := 0;
      while i < |chunks|
        invariant Holds(chunks, i, alerts, sent, MAX_EMBEDS)
        invariant posted == old(posted) + alerts[..sent]
        invariant Leads(State(), |alerts| - sent, i, interChunkDelay, net, sent, all)
      {
        NextChunk(chunks, i, alerts, sent, MAX_EMBEDS);
        LeadsOn(State(), |alerts| - sent, i, interChunkDelay, net, sent, all);
        assert old(posted) + alerts[..sent] + chunks[i] == old(posted) + (alerts[..sent] + chunks[i]);
        var ok := SendChunk(chunks[i], i, net(i));
        if !ok {
          return sent, true;
        }
        sent := sent + |chunks[i]|;
        i := i + 1;
      }
      NoChunkLeft(chunks, alerts, sent, MAX_EMBEDS);
      failed := false;
    }

    /** Returns how many of the alerts landed, which are its first ones, and whether one did not. */
    method SendBatchAlert(alerts: seq<Payload>, net: nat -> Chunk) returns (sent: int, failed: bool)
      modifies this
      ensures 0 <= sent <= |alerts|
      ensures Sent(State(), sent, failed) == Deliver(old(State()), |alerts|, 0, interChunkDelay, net)
      ensures posted == old(posted) + alerts[..sent]
      ensures failed <==> sent < |alerts|
    {
      DeliverCounts(State(), |alerts|, 0, interChunkDelay, net);
      var chunks := ChunkAlerts(alerts, MAX_EMBEDS);
      assert chunks[0..] == chunks && alerts[0..] == alerts;
      sent, failed := SendChunks(chunks, net, alerts, Deliver(State(), |alerts|, 0, interChunkDelay, net));
    }
  }
}
