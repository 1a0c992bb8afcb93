/**
 Interleaving judge candidates by component type for the labelling queue. A type is
 the place of its name in string order.
 */
module Stratify {
  import Finite
  import opened Wrappers

  type Kind = nat

  datatype Candidate = Candidate(kind: Kind, id: nat)

  /** The candidates of one type, in input order. */
  function OfKind(cs: seq<Candidate>, k: Kind): (r: seq<Candidate>)
    ensures |r| <= |cs|
  {
    if cs == [] then []
    else OfKind(cs[..|cs| - 1], k) + (if cs[|cs| - 1].kind == k then [cs[|cs| - 1]] else [])
  }

  lemma OfKindSnoc(cs: seq<Candidate>, c: Candidate, k: Kind)
    ensures OfKind(cs + [c], k) == OfKind(cs, k) + (if c.kind == k then [c] else [])
  {
    assert (cs + [c])[..|cs|] == cs;
  }

  predicate DistinctKeys(keys: seq<Kind>) {
    forall i, j :: 0 <= i < j < |keys| ==> keys[i] != keys[j]
  }

  /** Every candidate's type is one of the keys. */
  ghost predicate Within(cs: seq<Candidate>, keys: seq<Kind>) {
    forall c <- cs :: c.kind in keys
  }

  lemma WithinSnoc(cs: seq<Candidate>, c: Candidate, keys: seq<Kind>)
    ensures Within(cs + [c], keys) <==> Within(cs, keys) && c.kind in keys
  {
    assert forall x :: x in cs + [c] <==> x in cs || x == c;
  }

  function CountAll(cs: seq<Candidate>, keys: seq<Kind>): nat {
    if keys == [] then 0 else |OfKind(cs, keys[0])| + CountAll(cs, keys[1..])
  }

  lemma HeadKey(keys: seq<Kind>, k: Kind)
    requires keys != [] && DistinctKeys(keys)
    ensures DistinctKeys(keys[1..]) && keys[0] !in keys[1..]
    ensures k in keys <==> k == keys[0] || k in keys[1..]
  {
    assert forall i :: 0 <= i < |keys[1..]| ==> keys[1..][i] == keys[i + 1];
    assert keys == [keys[0]] + keys[1..];
  }

  lemma {:induction false} CountAllSnoc(cs: seq<Candidate>, c: Candidate, keys: seq<Kind>)
    requires DistinctKeys(keys)
    ensures CountAll(cs + [c], keys) == CountAll(cs, keys) + (if c.kind in keys then 1 else 0)
    decreases |keys|
  {
    if keys != [] {
      HeadKey(keys, c.kind);
      OfKindSnoc(cs, c, keys[0]);
      CountAllSnoc(cs, c, keys[1..]);
    }
  }

  /** Every candidate is in exactly one bucket. */
  lemma {:induction false} BucketsHoldAll(cs: seq<Candidate>, keys: seq<Kind>)
    requires DistinctKeys(keys) && Within(cs, keys)
    ensures CountAll(cs, keys) == |cs|
    decreases |cs|
  {
    if cs == [] {
      EmptyCounts(keys);
    } else {
      var k := |cs| - 1;
      assert cs == cs[..k] + [cs[k]];
      WithinSnoc(cs[..k], cs[k], keys);
      BucketsHoldAll(cs[..k], keys);
      CountAllSnoc(cs[..k], cs[k], keys);
    }
  }

  lemma {:induction false} EmptyCounts(keys: seq<Kind>)
    ensures CountAll([], keys) == 0
  {
    if keys != [] {
      EmptyCounts(keys[1..]);
    }
  }

  lemma {:induction false} CountAllLess(xs: seq<Candidate>, ys: seq<Candidate>, keys: seq<Kind>)
    requires forall i :: 0 <= i < |keys| ==> |OfKind(xs, keys[i])| <= |OfKind(ys, keys[i])|
    ensures CountAll(xs, keys) <= CountAll(ys, keys)
    decreases |keys|
  {
    if keys != [] {
      CountAllLess(xs, ys, keys[1..]);
    }
  }

  /** The first n items of one type have been emitted, or all if there are fewer. */
  ghost predicate EmittedOf(out: seq<Candidate>, cs: seq<Candidate>, k: Kind, n: nat) {
    OfKind(out, k) == OfKind(cs, k)[..Min(n, |OfKind(cs, k)|)]
  }

  /** `round` items of each type have been emitted, where there are as many, and for the first `upto`
      keys one more. */
  ghost predicate Emitted(out: seq<Candidate>, cs: seq<Candidate>, keys: seq<Kind>, round: nat, upto: nat) {
    && Within(out, keys)
    && (forall i :: 0 <= i < |keys| ==> EmittedOf(out, cs, keys[i], if i < upto then round + 1 else round))
  }

  lemma EmitNext(out: seq<Candidate>, cs: seq<Candidate>, k: Kind, round: nat)
    requires EmittedOf(out, cs, k, round)
    ensures var bucket := OfKind(cs, k);
            if round < |bucket| then bucket[round].kind == k && EmittedOf(out + [bucket[round]], cs, k, round + 1)
            else EmittedOf(out, cs, k, round + 1)
  {
    var bucket := OfKind(cs, k);
    if round < |bucket| {
      OfKindMember(cs, k, round);
      OfKindSnoc(out, bucket[round], k);
      assert bucket[..round] + [bucket[round]] == bucket[..round + 1];
    }
  }

  lemma EmitOther(out: seq<Candidate>, cs: seq<Candidate>, k: Kind, n: nat, c: Candidate)
    requires EmittedOf(out, cs, k, n) && c.kind != k
    ensures EmittedOf(out + [c], cs, k, n)
  {
    OfKindSnoc(out, c, k);
  }

  lemma EmitOne(out: seq<Candidate>, cs: seq<Candidate>, keys: seq<Kind>, round: nat, i: nat)
    requires DistinctKeys(keys) && i < |keys| && Emitted(out, cs, keys, round, i)
    ensures var bucket := OfKind(cs, keys[i]);
            if round < |bucket| then Emitted(out + [bucket[round]], cs, keys, round, i + 1)
            else Emitted(out, cs, keys, round, i + 1)
  {
    var bucket := OfKind(cs, keys[i]);
    EmitNext(out, cs, keys[i], round);
    if round < |bucket| {
      var c := bucket[round];
      WithinSnoc(out, c, keys);
      forall j | 0 <= j < |keys|
        ensures EmittedOf(out + [c], cs, keys[j], if j < i + 1 then round + 1 else round)
      {
        if j != i {
          EmitOther(out, cs, keys[j], if j < i then round + 1 else round, c);
        }
      }
    }
  }

  lemma {:induction false} OfKindMember(cs: seq<Candidate>, k: Kind, i: nat)
    requires i < |OfKind(cs, k)|
    ensures OfKind(cs, k)[i].kind == k
    decreases |cs|
  {
    if i < |OfKind(cs[..|cs| - 1], k)| {
      OfKindMember(cs[..|cs| - 1], k, i);
    }
  }

  /** Each type's emitted items are a prefix of its bucket, and while a type has items left no other
      has more than one extra. */
  ghost predicate Fair(out: seq<Candidate>, cs: seq<Candidate>) {
    && (forall k :: OfKind(out, k) <= OfKind(cs, k))
    && (forall k, l :: |OfKind(out, k)| < |OfKind(cs, k)| ==> |OfKind(out, l)| <= |OfKind(out, k)| + 1)
  }

  lemma {:induction false} OtherKinds(cs: seq<Candidate>, k: Kind)
    requires forall c <- cs :: c.kind != k
    ensures OfKind(cs, k) == []
    decreases |cs|
  {
    if cs != [] {
      OtherKinds(cs[..|cs| - 1], k);
    }
  }

  lemma EmittedIsFair(out: seq<Candidate>, cs: seq<Candidate>, keys: seq<Kind>, round: nat, upto: nat)
    requires Emitted(out, cs, keys, round, upto) && Within(cs, keys)
    ensures Fair(out, cs)
  {
    forall k
      ensures OfKind(out, k) <= OfKind(cs, k) && |OfKind(out, k)| <= round + 1
      ensures |OfKind(out, k)| < |OfKind(cs, k)| ==> |OfKind(out, k)| >= round
    {
      if k in keys {
        var i :| 0 <= i < |keys| && keys[i] == k;
        assert EmittedOf(out, cs, keys[i], if i < upto then round + 1 else round);
      } else {
        OtherKinds(out, k);
        OtherKinds(cs, k);
      }
    }
  }

  /** The buckets of the candidates read so far, and their types in order of first appearance. */
  ghost predicate Bucketed(buckets: map<Kind, seq<Candidate>>, keys: seq<Kind>, read: seq<Candidate>) {
    && DistinctKeys(keys) && (forall k :: k in buckets <==> k in keys)
    && Within(read, keys)
    && (forall i :: 0 <= i < |keys| ==> buckets[keys[i]] == OfKind(read, keys[i]))
  }

  lemma BucketKnown(buckets: map<Kind, seq<Candidate>>, keys: seq<Kind>, read: seq<Candidate>, c: Candidate)
    requires Bucketed(buckets, keys, read) && c.kind in keys
    ensures Bucketed(buckets[c.kind := buckets[c.kind] + [c]], keys, read + [c])
  {
    WithinSnoc(read, c, keys);
    forall i | 0 <= i < |keys|
      ensures OfKind(read + [c], keys[i]) == OfKind(read, keys[i]) + (if c.kind == keys[i] then [c] else [])
    {
      OfKindSnoc(read, c, keys[i]);
    }
  }

  lemma KeysSnoc(keys: seq<Kind>, k: Kind)
    requires DistinctKeys(keys) && k !in keys
    ensures DistinctKeys(keys + [k]) && forall l :: l in keys + [k] <==> l in keys || l == k
  {
  }

  lemma BucketNew(buckets: map<Kind, seq<Candidate>>, keys: seq<Kind>, read: seq<Candidate>, c: Candidate)
    requires Bucketed(buckets, keys, read) && c.kind !in keys
    ensures Bucketed(buckets[c.kind := [c]], keys + [c.kind], read + [c])
  {
    var all := keys + [c.kind];
    KeysSnoc(keys, c.kind);
    WithinSnoc(read, c, all);
    OtherKinds(read, c.kind);
    forall i | 0 <= i < |all|
      ensures OfKind(read + [c], all[i]) == if i < |keys| then OfKind(read, keys[i]) else [c]
    {
      OfKindSnoc(read, c, all[i]);
      assert i < |keys| ==> all[i] == keys[i] && all[i] in keys;
    }
  }

  method Bucket(cs: seq<Candidate>) returns (buckets: map<Kind, seq<Candidate>>, keys: seq<Kind>)
    ensures Bucketed(buckets, keys, cs)
  {
    buckets, keys := map[], [];
    var i := 0;
    while i < |cs|
      invariant 0 <= i <= |cs| && Bucketed(buckets, keys, cs[..i])
    {
      var k := cs[i].kind;
      assert cs[..i + 1] == cs[..i] + [cs[i]];
      if k !in buckets {
        BucketNew(buckets, keys, cs[..i], cs[i]);
        keys := keys + [k];
        buckets := buckets[k := [cs[i]]];
      } else {
        BucketKnown(buckets, keys, cs[..i], cs[i]);
        buckets := buckets[k := buckets[k] + [cs[i]]];
      }
      i := i + 1;
    }
    assert cs[..|cs|] == cs;
  }

  method SortKeys(keys: seq<Kind>) returns (sorted: seq<Kind>)
    ensures forall i, j :: 0 <= i < j < |sorted| ==> sorted[i] < sorted[j]
    ensures forall k :: k in sorted <==> k in keys
  {
    sorted := [];
    var rest := set k <- keys;
    while rest != {}
      invariant forall i, j :: 0 <= i < j < |sorted| ==> sorted[i] < sorted[j]
      invariant forall k <- rest, i | 0 <= i < |sorted| :: sorted[i] < k
      invariant forall k :: k in keys <==> k in sorted || k in rest
      decreases rest
    {
      ghost var least := Finite.LeastExists(rest);
      var next :| next in rest && forall k <- rest :: next <= k;
      sorted := sorted + [next];
      rest := rest - {next};
    }
  }

  /** The round in which the item at p was emitted: how many of its type came before it. */
  function RoundOf(out: seq<Candidate>, p: nat): nat
    requires p < |out|
  {
    |OfKind(out[..p], out[p].kind)|
  }

  /** Rounds follow one another, and within a round types come in increasing order. */
  ghost predicate InTurns(out: seq<Candidate>) {
    forall p, q :: 0 <= p < q < |out| ==>
      RoundOf(out, p) < RoundOf(out, q) || (RoundOf(out, p) == RoundOf(out, q) && out[p].kind < out[q].kind)
  }

  predicate Increasing(keys: seq<Kind>) {
    forall i, j :: 0 <= i < j < |keys| ==> keys[i] < keys[j]
  }

  /** Every item is of an earlier round, or of this one and of a type before those still to come in it. */
  ghost predicate TurnOf(out: seq<Candidate>, keys: seq<Kind>, round: nat, i: nat) {
    forall p :: 0 <= p < |out| ==>
      RoundOf(out, p) <= round && (RoundOf(out, p) == round ==> forall j :: i <= j < |keys| ==> out[p].kind < keys[j])
  }

  lemma RoundKept(out: seq<Candidate>, c: Candidate, p: nat)
    requires p < |out|
    ensures RoundOf(out + [c], p) == RoundOf(out, p) && (out + [c])[p] == out[p]
  {
    assert (out + [c])[..p] == out[..p];
  }

  lemma LastRound(out: seq<Candidate>, c: Candidate)
    ensures RoundOf(out + [c], |out|) == |OfKind(out, c.kind)|
  {
    assert (out + [c])[..|out|] == out;
  }

  lemma TakeTurn(out: seq<Candidate>, keys: seq<Kind>, round: nat, i: nat, c: Candidate)
    requires i < |keys| && Increasing(keys) && InTurns(out) && TurnOf(out, keys, round, i)
    requires c.kind == keys[i] && |OfKind(out, c.kind)| == round
    ensures InTurns(out + [c]) && TurnOf(out + [c], keys, round, i + 1)
  {
    var next := out + [c];
    LastRound(out, c);
    forall p | 0 <= p < |out|
      ensures RoundOf(next, p) == RoundOf(out, p) && next[p] == out[p]
    {
      RoundKept(out, c, p);
    }
    forall p | 0 <= p < |out|
      ensures RoundOf(next, p) < round || (RoundOf(next, p) == round && next[p].kind < c.kind)
    {
      assert RoundOf(out, p) <= round;
    }
  }

  lemma TurnIsRound(out: seq<Candidate>, cs: seq<Candidate>, keys: seq<Kind>, round: nat, i: nat)
    requires i < |keys| && Emitted(out, cs, keys, round, i) && round < |OfKind(cs, keys[i])|
    ensures |OfKind(out, keys[i])| == round
  {
    assert EmittedOf(out, cs, keys[i], round);
  }

  /** A round that has come to the type at i. */
  ghost predicate InRound(out: seq<Candidate>, cs: seq<Candidate>, keys: seq<Kind>, round: nat, i: nat) {
    Emitted(out, cs, keys, round, i) && InTurns(out) && TurnOf(out, keys, round, i)
  }

  lemma OneTurn(out: seq<Candidate>, cs: seq<Candidate>, keys: seq<Kind>, round: nat, i: nat)
    requires Increasing(keys) && i < |keys| && InRound(out, cs, keys, round, i)
    ensures var bucket := OfKind(cs, keys[i]);
            if round < |bucket| then InRound(out + [bucket[round]], cs, keys, round, i + 1)
            else InRound(out, cs, keys, round, i + 1)
  {
    EmitOne(out, cs, keys, round, i);
    if round < |OfKind(cs, keys[i])| {
      OfKindMember(cs, keys[i], round);
      TurnIsRound(out, cs, keys, round, i);
      TakeTurn(out, keys, round, i, OfKind(cs, keys[i])[round]);
    } else {
      SkipTurn(out, keys, round, i);
    }
  }

  lemma SkipTurn(out: seq<Candidate>, keys: seq<Kind>, round: nat, i: nat)
    requires TurnOf(out, keys, round, i)
    ensures TurnOf(out, keys, round, i + 1)
  {
  }

  /** The first n types have no item for this round. */
  predicate UsedUp(cs: seq<Candidate>, keys: seq<Kind>, round: nat, n: nat)
    requires n <= |keys|
  {
    forall j :: 0 <= j < n ==> round >= |OfKind(cs, keys[j])|
  }

  /** One round: the next item of each type in key order, until the limit. */
  method Round(buckets: map<Kind, seq<Candidate>>, keys: seq<Kind>, before: seq<Candidate>, round: nat, limit: nat,
               ghost cs: seq<Candidate>)
    returns (out: seq<Candidate>, anyAdded: bool, ghost upto: nat)
    requires Increasing(keys)
    requires forall i :: 0 <= i < |keys| ==> keys[i] in buckets && buckets[keys[i]] == OfKind(cs, keys[i])
    requires |before| < limit && InRound(before, cs, keys, round, 0)
    ensures |out| <= limit && upto <= |keys| && InRound(out, cs, keys, round, upto)
    ensures |out| < limit ==> upto == |keys|
    ensures anyAdded ==> |out| > |before|
    ensures !anyAdded ==>
              out == before && |out| < limit && upto == |keys|
              && UsedUp(cs, keys, round, |keys|)
  {
    out, anyAdded, upto := before, false, 0;
    var i := 0;
    while i < |keys|
      invariant 0 <= i <= |keys| && upto == i && |out| < limit
      invariant InRound(out, cs, keys, round, i)
      invariant anyAdded ==> |out| > |before|
      invariant !anyAdded ==> out == before && UsedUp(cs, keys, round, i)
    {
      var k := keys[i];
      assert buckets[k] == OfKind(cs, keys[i]);
      OneTurn(out, cs, keys, round, i);
      i, upto := i + 1, upto + 1;
      if round < |buckets[k]| {
        out := out + [buckets[k][round]];
        anyAdded := true;
        if |out| >= limit {
          break;
        }
      }
    }
  }

  lemma NoMoreThanInput(out: seq<Candidate>, cs: seq<Candidate>, keys: seq<Kind>)
    requires DistinctKeys(keys) && Within(cs, keys) && Within(out, keys)
    requires forall i :: 0 <= i < |keys| ==> |OfKind(out, keys[i])| <= |OfKind(cs, keys[i])|
    ensures |out| <= |cs|
  {
    BucketsHoldAll(out, keys);
    BucketsHoldAll(cs, keys);
    CountAllLess(out, cs, keys);
  }

  /** As many candidates as the limit and the input allow, shared out fairly, in rounds of increasing type. */
  method Stratify(cs: seq<Candidate>, limit: nat) returns (out: seq<Candidate>)
    ensures |out| == Min(limit, |cs|)
    ensures Fair(out, cs)
    ensures InTurns(out)
  {
    var buckets, unsorted := Bucket(cs);
    var keys := SortKeys(unsorted);
    out := [];
    var round := 0;
    ghost var full, upto := 0, 0;
    ghost var exhausted := false;
    while |out| < limit
      invariant |out| <= limit && !exhausted && Emitted(out, cs, keys, full, upto)
      invariant InTurns(out)
      invariant |out| < limit ==> upto == 0 && full == round && TurnOf(out, keys, full, 0)
      decreases limit - |out|
    {
      var anyAdded;
      out, anyAdded, upto := Round(buckets, keys, out, round, limit, cs);
      if !anyAdded {
        exhausted := true;
        break;
      }
      round := round + 1;
      if |out| < limit {
        NextRound(out, cs, keys, full);
        NextTurns(out, keys, full);
        full, upto := full + 1, 0;
      }
    }
    EmittedIsFair(out, cs, keys, full, upto);
    NoMoreThanInput(out, cs, keys);
    if exhausted {
      NoMoreThanInput(cs, out, keys);
    }
  }

  lemma NextTurns(out: seq<Candidate>, keys: seq<Kind>, round: nat)
    requires TurnOf(out, keys, round, |keys|)
    ensures TurnOf(out, keys, round + 1, 0)
  {
  }

  lemma NextRound(out: seq<Candidate>, cs: seq<Candidate>, keys: seq<Kind>, round: nat)
    requires Emitted(out, cs, keys, round, |keys|)
    ensures Emitted(out, cs, keys, round + 1, 0)
  {
  }
}
