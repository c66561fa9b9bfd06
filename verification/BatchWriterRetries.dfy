/**
 Retry accounting of the batch writer: what the handler said about each single item, over the whole
 run, decides where that item is now.
 */
module BatchWriterRetries {
  import opened BatchWriter
  import opened BatchWriterProofs

  /** The answers one batch gave about one item. */
  function InBatch(es: seq<Entry>, rs: seq<bool>, id: nat): seq<bool>
    requires |es| == |rs|
  {
    if |es| == 0 then []
    else
      var n := |es| - 1;
      InBatch(es[..n], rs[..n], id) + (if es[n].id == id then [rs[n]] else [])
  }

  /** The answers the handler ever gave about one item, oldest first. */
  function Outcomes(batches: seq<Batch>, id: nat): seq<bool>
    requires Answered(batches)
  {
    if |batches| == 0 then []
    else
      var n := |batches| - 1;
      Outcomes(batches[..n], id) + InBatch(batches[n].entries, batches[n].responses, id)
  }

  function Failures(n: nat): seq<bool> { seq(n, i => false) }

  lemma {:induction false} InBatchAbsent(es: seq<Entry>, rs: seq<bool>, id: nat)
    requires |es| == |rs|
    requires forall k :: 0 <= k < |es| ==> es[k].id != id
    ensures InBatch(es, rs, id) == []
  {
    if |es| > 0 { InBatchAbsent(es[..|es| - 1], rs[..|es| - 1], id); }
  }

  lemma {:induction false} InBatchOnce(es: seq<Entry>, rs: seq<bool>, k: nat)
    requires |es| == |rs| && Ordered(es) && k < |es|
    ensures InBatch(es, rs, es[k].id) == [rs[k]]
  {
    var n := |es| - 1;
    if k == n {
      InBatchAbsent(es[..n], rs[..n], es[k].id);
    } else {
      InBatchOnce(es[..n], rs[..n], k);
    }
  }

  /** Where an item is, told from the handler's answers about it. */
  ghost predicate Accounted<T>(p: Params<T>, s: History<T>)
    requires Answered(s.batches)
  {
    && (forall k :: 0 <= k < |s.buffer| ==>
          Outcomes(s.batches, s.buffer[k].id) == Failures(s.buffer[k].attempt))
    && (forall id :: id in s.acked ==> AckedAfterRetries(Limit(p), Outcomes(s.batches, id)))
    && (forall id :: id in s.dropped ==> Outcomes(s.batches, id) == Failures(Limit(p) + 1))
    && (forall id :: id in s.abandoned ==> LostWhileRetrying(Limit(p), Outcomes(s.batches, id)))
    && (forall id: nat :: id >= |s.accepted| ==> Outcomes(s.batches, id) == [])
  }

  /** At most `limit` failures, then one success, then nothing more. */
  predicate AckedAfterRetries(limit: nat, o: seq<bool>) {
    0 < |o| <= limit + 1 && o == Failures(|o| - 1) + [true]
  }

  predicate LostWhileRetrying(limit: nat, o: seq<bool>) {
    1 <= |o| <= limit && o == Failures(|o|)
  }

  lemma BufferedIsNowhereElse<T>(s: History<T>, id: nat)
    requires Conserved(s) && id in Ids(s.buffer)
    ensures id < |s.accepted| && id !in s.acked && id !in s.dropped && id !in s.abandoned
  {
    UptoOnce(|s.accepted|);
    var places := multiset(s.acked) + multiset(s.dropped) + multiset(s.abandoned) + multiset(Ids(s.buffer));
    assert places[id] == multiset(s.acked)[id] + multiset(s.dropped)[id]
                         + multiset(s.abandoned)[id] + multiset(Ids(s.buffer))[id];
    assert multiset(Ids(s.buffer))[id] >= 1;
  }

  lemma SelectedIds(f: Fate, maxRetries: int, es: seq<Entry>, rs: seq<bool>, id: nat) returns (k: nat)
    requires |es| == |rs| && id in Ids(Select(f, maxRetries, es, rs))
    ensures k < |es| && es[k].id == id && FateOf(maxRetries, es[k].attempt, rs[k]) == f
  {
    SelectIncluded(f, maxRetries, es, rs);
    var chosen := Select(f, maxRetries, es, rs);
    var j :| 0 <= j < |chosen| && Ids(chosen)[j] == id;
    assert chosen[j] in chosen;
    k :| 0 <= k < |es| && es[k] == chosen[j] && FateOf(maxRetries, es[k].attempt, rs[k]) == f;
  }

  /** One more batch adds one answer to each of its items and none to any other. */
  lemma OneMoreAnswer(batches: seq<Batch>, b: Batch, k: nat)
    requires Answered(batches) && |b.entries| == |b.responses| && Ordered(b.entries) && k < |b.entries|
    ensures Answered(batches + [b])
    ensures Outcomes(batches + [b], b.entries[k].id) == Outcomes(batches, b.entries[k].id) + [b.responses[k]]
  {
    assert (batches + [b])[..|batches|] == batches;
    InBatchOnce(b.entries, b.responses, k);
  }

  lemma NoMoreAnswers(batches: seq<Batch>, b: Batch, id: nat)
    requires Answered(batches) && |b.entries| == |b.responses| && id !in Ids(b.entries)
    ensures Answered(batches + [b])
    ensures Outcomes(batches + [b], id) == Outcomes(batches, id)
  {
    assert (batches + [b])[..|batches|] == batches;
    forall k | 0 <= k < |b.entries| ensures b.entries[k].id != id { assert Ids(b.entries)[k] in Ids(b.entries); }
    InBatchAbsent(b.entries, b.responses, id);
  }

  /** What a batch must look like, next to the answers its items had before. */
  ghost predicate Fresh(batches: seq<Batch>, b: Batch, limit: nat)
    requires Answered(batches)
  {
    && |b.entries| == |b.responses|
    && Ordered(b.entries)
    && forall k :: 0 <= k < |b.entries| ==>
         && b.entries[k].attempt <= limit
         && Outcomes(batches, b.entries[k].id) == Failures(b.entries[k].attempt)
  }

  lemma AckedFate(limit: nat, maxRetries: int, batches: seq<Batch>, b: Batch, id: nat)
    requires Answered(batches) && Fresh(batches, b, limit)
    requires id in Ids(Select(Ack, maxRetries, b.entries, b.responses))
    ensures Answered(batches + [b]) && id in Ids(b.entries)
    ensures AckedAfterRetries(limit, Outcomes(batches + [b], id))
  {
    var k := SelectedIds(Ack, maxRetries, b.entries, b.responses, id);
    assert Ids(b.entries)[k] == id;
    OneMoreAnswer(batches, b, k);
  }

  lemma DroppedFate(limit: nat, maxRetries: int, batches: seq<Batch>, b: Batch, id: nat)
    requires Answered(batches) && Fresh(batches, b, limit) && (limit == maxRetries || maxRetries < 0 == limit)
    requires id in Ids(Select(Drop, maxRetries, b.entries, b.responses))
    ensures Answered(batches + [b]) && id in Ids(b.entries)
    ensures Outcomes(batches + [b], id) == Failures(limit + 1)
  {
    var k := SelectedIds(Drop, maxRetries, b.entries, b.responses, id);
    assert Ids(b.entries)[k] == id;
    OneMoreAnswer(batches, b, k);
    assert Failures(limit) + [false] == Failures(limit + 1);
  }

  lemma SurvivorFate(limit: nat, maxRetries: int, batches: seq<Batch>, b: Batch, j: nat)
    requires Answered(batches) && Fresh(batches, b, limit) && maxRetries <= limit
    requires j < |Survivors(maxRetries, b.entries, b.responses)|
    ensures Answered(batches + [b])
    ensures var e := Survivors(maxRetries, b.entries, b.responses)[j];
            Outcomes(batches + [b], e.id) == Failures(e.attempt) && 1 <= e.attempt <= limit
  {
    var kept := Select(Retry, maxRetries, b.entries, b.responses);
    SelectIncluded(Retry, maxRetries, b.entries, b.responses);
    assert kept[j] in kept;
    var k :| 0 <= k < |b.entries| && b.entries[k] == kept[j]
             && FateOf(maxRetries, kept[j].attempt, b.responses[k]) == Retry;
    OneMoreAnswer(batches, b, k);
    assert Failures(kept[j].attempt) + [false] == Failures(kept[j].attempt + 1);
  }

  lemma FlushIsFresh<T(!new)>(p: Params<T>, cause: Cause, s: History<T>) returns (b: Batch)
    requires WellBehaved(p) && Inv(p, s) && Answered(s.batches) && Accounted(p, s) && s.buffer != []
    ensures b.entries == s.buffer && Fresh(s.batches, b, Limit(p))
    ensures Flush(p, cause, s) == s.(
                                    batches := s.batches + [b],
                                    acked := s.acked + Ids(Select(Ack, p.maxRetries, b.entries, b.responses)),
                                    dropped := s.dropped + Ids(Select(Drop, p.maxRetries, b.entries, b.responses)),
                                    buffer := Survivors(p.maxRetries, b.entries, b.responses))
  {
    b := Batch(cause, s.buffer, p.handler(|s.batches|, Values(s.accepted, s.buffer)));
  }

  lemma FlushAccounted<T(!new)>(p: Params<T>, cause: Cause, s: History<T>)
    requires WellBehaved(p) && Inv(p, s) && Answered(s.batches) && Accounted(p, s)
    ensures Answered(Flush(p, cause, s).batches) && Accounted(p, Flush(p, cause, s))
    ensures s.buffer != [] ==>
              forall k :: 0 <= k < |Flush(p, cause, s).buffer| ==> Flush(p, cause, s).buffer[k].attempt >= 1
  {
    if s.buffer != [] {
      var b := FlushIsFresh(p, cause, s);
      var t := Flush(p, cause, s);
      assert Answered(t.batches);
      SurvivorsAccounted(p, s, b);
      AckedAccounted(p, s, b);
      DroppedAccounted(p, s, b);
      OthersAccounted(p, s, b);
    }
  }

  lemma SurvivorsAccounted<T>(p: Params<T>, s: History<T>, b: Batch)
    requires Answered(s.batches) && b.entries == s.buffer && Fresh(s.batches, b, Limit(p))
    ensures Answered(s.batches + [b])
    ensures var kept := Survivors(p.maxRetries, b.entries, b.responses);
            forall k :: 0 <= k < |kept| ==>
              kept[k].attempt >= 1 && Outcomes(s.batches + [b], kept[k].id) == Failures(kept[k].attempt)
  {
    var kept := Survivors(p.maxRetries, b.entries, b.responses);
    forall k | 0 <= k < |kept|
      ensures Answered(s.batches + [b]) && kept[k].attempt >= 1
      ensures Outcomes(s.batches + [b], kept[k].id) == Failures(kept[k].attempt)
    {
      SurvivorFate(Limit(p), p.maxRetries, s.batches, b, k);
    }
  }

  lemma AckedAccounted<T>(p: Params<T>, s: History<T>, b: Batch)
    requires Answered(s.batches) && b.entries == s.buffer && Fresh(s.batches, b, Limit(p))
    requires Conserved(s) && Accounted(p, s)
    ensures Answered(s.batches + [b])
    ensures forall id :: id in s.acked + Ids(Select(Ack, p.maxRetries, b.entries, b.responses)) ==>
              AckedAfterRetries(Limit(p), Outcomes(s.batches + [b], id))
  {
    forall id | id in s.acked + Ids(Select(Ack, p.maxRetries, b.entries, b.responses))
      ensures Answered(s.batches + [b]) && AckedAfterRetries(Limit(p), Outcomes(s.batches + [b], id))
    {
      if id in s.acked {
        NoFurtherAnswers(s, b, id);
      } else {
        AckedFate(Limit(p), p.maxRetries, s.batches, b, id);
      }
    }
  }

  lemma DroppedAccounted<T>(p: Params<T>, s: History<T>, b: Batch)
    requires Answered(s.batches) && b.entries == s.buffer && Fresh(s.batches, b, Limit(p))
    requires Conserved(s) && Accounted(p, s)
    ensures Answered(s.batches + [b])
    ensures forall id :: id in s.dropped + Ids(Select(Drop, p.maxRetries, b.entries, b.responses)) ==>
              Outcomes(s.batches + [b], id) == Failures(Limit(p) + 1)
  {
    forall id | id in s.dropped + Ids(Select(Drop, p.maxRetries, b.entries, b.responses))
      ensures Answered(s.batches + [b]) && Outcomes(s.batches + [b], id) == Failures(Limit(p) + 1)
    {
      if id in s.dropped {
        NoFurtherAnswers(s, b, id);
      } else {
        DroppedFate(Limit(p), p.maxRetries, s.batches, b, id);
      }
    }
  }

  lemma OthersAccounted<T>(p: Params<T>, s: History<T>, b: Batch)
    requires Answered(s.batches) && b.entries == s.buffer && |b.entries| == |b.responses|
    requires Conserved(s) && Accounted(p, s)
    ensures Answered(s.batches + [b])
    ensures forall id :: id in s.abandoned ==> LostWhileRetrying(Limit(p), Outcomes(s.batches + [b], id))
    ensures forall id: nat :: id >= |s.accepted| ==> Outcomes(s.batches + [b], id) == []
  {
    forall id | id in s.abandoned
      ensures Answered(s.batches + [b]) && LostWhileRetrying(Limit(p), Outcomes(s.batches + [b], id))
    {
      NoFurtherAnswers(s, b, id);
    }
    forall id: nat | id >= |s.accepted| ensures Answered(s.batches + [b]) && Outcomes(s.batches + [b], id) == [] {
      NoFurtherAnswers(s, b, id);
    }
  }

  /** An item outside the buffer gets no further answers. */
  lemma NoFurtherAnswers<T>(s: History<T>, b: Batch, id: nat)
    requires Answered(s.batches) && Conserved(s) && b.entries == s.buffer && |b.entries| == |b.responses|
    requires id in s.acked || id in s.dropped || id in s.abandoned || id >= |s.accepted|
    ensures Answered(s.batches + [b])
    ensures Outcomes(s.batches + [b], id) == Outcomes(s.batches, id)
  {
    if id in Ids(s.buffer) { BufferedIsNowhereElse(s, id); }
    NoMoreAnswers(s.batches, b, id);
  }

  lemma MakeRoomAccounted<T(!new)>(p: Params<T>, s: History<T>)
    requires WellBehaved(p) && p.batchSize >= 1 && Inv(p, s) && Answered(s.batches) && Accounted(p, s)
    ensures Answered(MakeRoom(p, s).batches) && Accounted(p, MakeRoom(p, s))
  {
    if |s.buffer| >= p.batchSize {
      FlushAccounted(p, FullBuffer, s);
      FlushInv(p, FullBuffer, s);
      var f := Flush(p, FullBuffer, s);
      forall id | id in Ids(f.buffer) ensures LostWhileRetrying(Limit(p), Outcomes(f.batches, id)) {
        var k :| 0 <= k < |f.buffer| && Ids(f.buffer)[k] == id;
        assert f.buffer[k].attempt <= Limit(p);
      }
    }
  }

  lemma AcceptAccounted<T>(p: Params<T>, r: History<T>, v: T)
    requires Answered(r.batches) && Accounted(p, r)
    ensures Accounted(p, r.(accepted := r.accepted + [v], buffer := r.buffer + [Entry(|r.accepted|, 0)]))
  {
    assert Outcomes(r.batches, |r.accepted|) == [] == Failures(0);
  }

  lemma NextAccounted<T(!new)>(p: Params<T>, s: History<T>, a: Action<T>)
    requires WellBehaved(p) && p.batchSize >= 1 && Inv(p, s) && Answered(s.batches) && Accounted(p, s)
    ensures Answered(Next(p, s, a).batches) && Accounted(p, Next(p, s, a))
  {
    if !s.stopped {
      match a
      case Submitted(v) =>
        MakeRoomAccounted(p, s);
        AcceptAccounted(p, MakeRoom(p, s), v);
      case Ticked => FlushAccounted(p, Interval, s);
      case Stopped => FlushAccounted(p, Shutdown, s);
    }
  }

  /**
   Over every schedule and handler: a buffered item's `attempt` is the number of batches it failed
   in; an acknowledged item failed at most the retry limit times and was never handed out again; an
   item is given up by the retry rule after exactly one failure more than the limit.
   */
  lemma {:induction false} RetryAccounting<T(!new)>(p: Params<T>, actions: seq<Action<T>>)
    requires WellBehaved(p) && p.batchSize >= 1
    ensures Answered(Run(p, Start(), actions).batches)
    ensures Accounted(p, Run(p, Start(), actions))
  {
    if |actions| > 0 {
      var n := |actions| - 1;
      RetryAccounting(p, actions[..n]);
      RunInv(p, actions[..n]);
      NextAccounted(p, Run(p, Start(), actions[..n]), actions[n]);
    } else {
      assert Ids([]) == [];
    }
  }

  /** An accepted item is in exactly one of the four places. */
  lemma SomewhereOnce<T>(s: History<T>, id: nat)
    requires Conserved(s) && id < |s.accepted|
    ensures id in s.acked || id in s.dropped || id in s.abandoned || id in Ids(s.buffer)
  {
    UptoOnce(|s.accepted|);
    assert multiset(Upto(|s.accepted|))[id] == 1;
    assert id in multiset(s.acked) + multiset(s.dropped) + multiset(s.abandoned) + multiset(Ids(s.buffer));
  }

  lemma BufferedOutcomes<T>(p: Params<T>, s: History<T>, id: nat)
    requires Inv(p, s) && Answered(s.batches) && Accounted(p, s) && id in Ids(s.buffer)
    ensures |Outcomes(s.batches, id)| <= Limit(p) && Outcomes(s.batches, id) == Failures(|Outcomes(s.batches, id)|)
  {
    var k :| 0 <= k < |s.buffer| && Ids(s.buffer)[k] == id;
    assert s.buffer[k].attempt <= Limit(p);
  }

  /** The handler's answers decide an item's fate: it is acknowledged if and only if one of them was a
      success, and given up by the retry rule if and only if there were one more failures than the
      limit allows. */
  lemma FateFromOutcomes<T(!new)>(p: Params<T>, actions: seq<Action<T>>, id: nat)
    requires WellBehaved(p) && p.batchSize >= 1 && id < |Run(p, Start(), actions).accepted|
    ensures Answered(Run(p, Start(), actions).batches)
    ensures var s := Run(p, Start(), actions);
            && (id in s.acked <==> true in Outcomes(s.batches, id))
            && (id in s.dropped <==> Outcomes(s.batches, id) == Failures(Limit(p) + 1))
  {
    RetryAccounting(p, actions);
    RunInv(p, actions);
    StateFate(p, Run(p, Start(), actions), id);
  }

  lemma StateFate<T>(p: Params<T>, s: History<T>, id: nat)
    requires Inv(p, s) && Answered(s.batches) && Accounted(p, s) && id < |s.accepted|
    ensures id in s.acked <==> true in Outcomes(s.batches, id)
    ensures id in s.dropped <==> Outcomes(s.batches, id) == Failures(Limit(p) + 1)
  {
    SomewhereOnce(s, id);
    var o := Outcomes(s.batches, id);
    if id in s.acked {
      assert o[|o| - 1];
    } else if id in Ids(s.buffer) {
      BufferedOutcomes(p, s, id);
    }
    assert o == Failures(Limit(p) + 1) ==> |o| == Limit(p) + 1 && !o[Limit(p)];
  }

  // ---------- A negative limit ----------

  lemma {:induction false} SelectAtLimit(f: Fate, maxRetries: int, es: seq<Entry>, rs: seq<bool>)
    requires |es| == |rs| && maxRetries <= 0
    ensures Select(f, maxRetries, es, rs) == Select(f, 0, es, rs)
  {
    if |es| > 0 { SelectAtLimit(f, maxRetries, es[..|es| - 1], rs[..|es| - 1]); }
  }

  lemma FlushAtLimit<T(!new)>(p: Params<T>, cause: Cause, s: History<T>)
    requires WellBehaved(p) && Known(s) && p.maxRetries <= 0
    ensures WellBehaved(p.(maxRetries := 0)) && Flush(p, cause, s) == Flush(p.(maxRetries := 0), cause, s)
  {
    var q := p.(maxRetries := 0);
    assert forall n: nat, batch: seq<T> :: q.handler(n, batch) == p.handler(n, batch);
    if s.buffer != [] {
      var rs := p.handler(|s.batches|, Values(s.accepted, s.buffer));
      SelectAtLimit(Ack, p.maxRetries, s.buffer, rs);
      SelectAtLimit(Retry, p.maxRetries, s.buffer, rs);
      SelectAtLimit(Drop, p.maxRetries, s.buffer, rs);
    }
  }

  /** A negative retry limit is the same as none, in every run. */
  lemma {:induction false} NegativeLimitIsZero<T(!new)>(p: Params<T>, actions: seq<Action<T>>)
    requires WellBehaved(p) && p.maxRetries <= 0
    ensures WellBehaved(p.(maxRetries := 0))
    ensures Run(p, Start(), actions) == Run(p.(maxRetries := 0), Start(), actions)
  {
    var q := p.(maxRetries := 0);
    assert forall n: nat, batch: seq<T> :: q.handler(n, batch) == p.handler(n, batch);
    if |actions| > 0 {
      var n := |actions| - 1;
      NegativeLimitIsZero(p, actions[..n]);
      NextAtLimit(p, Run(p, Start(), actions[..n]), actions[n]);
    }
  }

  lemma NextAtLimit<T(!new)>(p: Params<T>, s: History<T>, a: Action<T>)
    requires WellBehaved(p) && Known(s) && p.maxRetries <= 0
    ensures WellBehaved(p.(maxRetries := 0)) && Next(p, s, a) == Next(p.(maxRetries := 0), s, a)
  {
    match a
    case Submitted(_) => FlushAtLimit(p, FullBuffer, s);
    case Ticked => FlushAtLimit(p, Interval, s);
    case Stopped => FlushAtLimit(p, Shutdown, s);
  }

  /** No item is handed to the handler more than the retry limit plus one times. */
  lemma HandedAtMost<T(!new)>(p: Params<T>, actions: seq<Action<T>>, id: nat)
    requires WellBehaved(p) && p.batchSize >= 1
    ensures Answered(Run(p, Start(), actions).batches)
    ensures |Outcomes(Run(p, Start(), actions).batches, id)| <= Limit(p) + 1
  {
    RetryAccounting(p, actions);
    RunInv(p, actions);
    var s := Run(p, Start(), actions);
    if id < |s.accepted| {
      SomewhereOnce(s, id);
      if id in Ids(s.buffer) { BufferedOutcomes(p, s, id); }
    }
  }
}
