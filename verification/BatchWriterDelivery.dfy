/**
 What a batch writer run hands out: the exact batches under a handler that never fails, and how fast
 ticks empty the buffer under any handler.
 */
module BatchWriterDelivery {
  import opened BatchWriter
  import opened BatchWriterProofs

  // ---------- A handler that never fails ----------

  ghost predicate NeverFails<T(!new)>(p: Params<T>) {
    forall n: nat, batch: seq<T>, k :: 0 <= k < |p.handler(n, batch)| ==> p.handler(n, batch)[k]
  }

  function Handed(batches: seq<Batch>): seq<nat> {
    if |batches| == 0 then []
    else Handed(batches[..|batches| - 1]) + Ids(batches[|batches| - 1].entries)
  }

  /** The values handed out over the whole run, in order. */
  function ItemsAt<T>(accepted: seq<T>, ids: seq<nat>): seq<T>
    requires forall k :: 0 <= k < |ids| ==> ids[k] < |accepted|
  {
    seq(|ids|, i requires 0 <= i < |ids| => accepted[ids[i]])
  }

  ghost predicate InOrder<T>(s: History<T>) {
    && Handed(s.batches) + Ids(s.buffer) == Upto(|s.accepted|)
    && s.acked == Handed(s.batches)
    && s.dropped == s.abandoned == []
    && (s.stopped ==> s.buffer == [])
  }

  lemma {:induction false} AllAcked(maxRetries: int, es: seq<Entry>, rs: seq<bool>)
    requires |es| == |rs|
    requires forall k :: 0 <= k < |rs| ==> rs[k]
    ensures Select(Ack, maxRetries, es, rs) == es
    ensures Select(Drop, maxRetries, es, rs) == Select(Retry, maxRetries, es, rs) == []
  {
    if |es| > 0 { AllAcked(maxRetries, es[..|es| - 1], rs[..|es| - 1]); }
  }

  lemma HandedStep(batches: seq<Batch>, b: Batch)
    ensures Handed(batches + [b]) == Handed(batches) + Ids(b.entries)
  {
    assert (batches + [b])[..|batches|] == batches;
  }

  /** A flush without failures acknowledges the whole buffer. */
  lemma GoodFlush<T(!new)>(p: Params<T>, cause: Cause, s: History<T>, rs: seq<bool>)
    requires WellBehaved(p) && Known(s) && s.buffer != []
    requires rs == p.handler(|s.batches|, Values(s.accepted, s.buffer))
    requires forall k :: 0 <= k < |rs| ==> rs[k]
    ensures Flush(p, cause, s) ==
            s.(batches := s.batches + [Batch(cause, s.buffer, rs)], acked := s.acked + Ids(s.buffer), buffer := [])
  {
    AllAcked(p.maxRetries, s.buffer, rs);
    assert Ids([]) == [] && Aged([]) == [];
    assert s.dropped + [] == s.dropped;
  }

  lemma FlushInOrder<T(!new)>(p: Params<T>, cause: Cause, s: History<T>)
    requires WellBehaved(p) && NeverFails(p) && Known(s) && InOrder(s) && !s.stopped
    ensures var t := Flush(p, cause, s);
            InOrder(t) && t.buffer == [] && t.accepted == s.accepted && t.stopped == s.stopped
  {
    assert Ids([]) == [];
    if s.buffer != [] {
      var rs := p.handler(|s.batches|, Values(s.accepted, s.buffer));
      GoodFlush(p, cause, s, rs);
      HandedStep(s.batches, Batch(cause, s.buffer, rs));
      var handed := Handed(s.batches) + Ids(s.buffer);
      assert handed + [] == handed;
    }
  }

  lemma RoomInOrder<T(!new)>(p: Params<T>, s: History<T>)
    requires WellBehaved(p) && NeverFails(p) && Known(s) && InOrder(s) && !s.stopped
    ensures InOrder(MakeRoom(p, s)) && !MakeRoom(p, s).stopped
  {
    if |s.buffer| >= p.batchSize {
      FlushInOrder(p, FullBuffer, s);
      assert Ids([]) == [];
    }
  }

  lemma AcceptInOrder<T>(r: History<T>, v: T)
    requires InOrder(r) && !r.stopped
    ensures InOrder(r.(accepted := r.accepted + [v], buffer := r.buffer + [Entry(|r.accepted|, 0)]))
  {
    var id := |r.accepted|;
    IdsConcat(r.buffer, [Entry(id, 0)]);
    assert Ids([Entry(id, 0)]) == [id];
    assert Handed(r.batches) + (Ids(r.buffer) + [id]) == (Handed(r.batches) + Ids(r.buffer)) + [id];
    assert Upto(id + 1) == Upto(id) + [id];
  }

  lemma NextInOrder<T(!new)>(p: Params<T>, s: History<T>, a: Action<T>)
    requires WellBehaved(p) && NeverFails(p) && Known(s) && InOrder(s)
    ensures InOrder(Next(p, s, a))
  {
    if !s.stopped {
      match a
      case Submitted(v) =>
        RoomInOrder(p, s);
        AcceptInOrder(MakeRoom(p, s), v);
      case Ticked => FlushInOrder(p, Interval, s);
      case Stopped => FlushInOrder(p, Shutdown, s);
    }
  }

  /** With a handler that never fails, the batches followed by the buffer are the accepted items in
      acceptance order, at every moment of every schedule; nothing is lost, and after shutdown the
      batches alone are everything that was accepted. */
  lemma {:induction false} ExactBatching<T(!new)>(p: Params<T>, actions: seq<Action<T>>)
    requires WellBehaved(p) && NeverFails(p)
    ensures InOrder(Run(p, Start(), actions))
  {
    if |actions| == 0 {
      assert Ids([]) == [] == Upto(0);
    } else {
      var n := |actions| - 1;
      ExactBatching(p, actions[..n]);
      NextInOrder(p, Run(p, Start(), actions[..n]), actions[n]);
    }
  }

  /** The same in terms of the items themselves, with the batch sizes. */
  lemma ShutdownDeliversAll<T(!new)>(p: Params<T>, actions: seq<Action<T>>)
    requires WellBehaved(p) && NeverFails(p) && p.batchSize >= 1
    requires Run(p, Start(), actions).stopped
    ensures var s := Run(p, Start(), actions);
            && (forall k :: 0 <= k < |Handed(s.batches)| ==> Handed(s.batches)[k] < |s.accepted|)
            && ItemsAt(s.accepted, Handed(s.batches)) == s.accepted
            && (forall k :: 0 <= k < |s.batches| ==>
                  && 0 < |s.batches[k].entries| <= p.batchSize
                  && (s.batches[k].cause == FullBuffer ==> |s.batches[k].entries| == p.batchSize))
  {
    ExactBatching(p, actions);
    RunInv(p, actions);
    var s := Run(p, Start(), actions);
    assert Ids([]) == [];
    assert Handed(s.batches) == Upto(|s.accepted|);
    forall k | 0 <= k < |s.batches|
      ensures 0 < |s.batches[k].entries| <= p.batchSize
      ensures s.batches[k].cause == FullBuffer ==> |s.batches[k].entries| == p.batchSize
    {
      assert BatchOk(p.batchSize, |s.accepted|, s.batches[k]);
    }
  }

  // ---------- Draining ----------

  function Budget(limit: nat, es: seq<Entry>): int {
    if |es| == 0 then 0 else Budget(limit, es[..|es| - 1]) + (limit + 1 - es[|es| - 1].attempt)
  }

  lemma {:induction false} BudgetNonnegative(limit: nat, es: seq<Entry>)
    requires forall k :: 0 <= k < |es| ==> es[k].attempt <= limit
    ensures Budget(limit, es) >= |es|
  {
    if |es| > 0 { BudgetNonnegative(limit, es[..|es| - 1]); }
  }

  lemma {:induction false} SurvivorsSpend(limit: nat, maxRetries: int, es: seq<Entry>, rs: seq<bool>)
    requires |es| == |rs|
    requires forall k :: 0 <= k < |es| ==> es[k].attempt <= limit
    ensures Budget(limit, Survivors(maxRetries, es, rs)) + |es| <= Budget(limit, es)
  {
    if |es| > 0 {
      var n := |es| - 1;
      SurvivorsSpend(limit, maxRetries, es[..n], rs[..n]);
      var before, after := Survivors(maxRetries, es[..n], rs[..n]), Survivors(maxRetries, es, rs);
      if FateOf(maxRetries, es[n].attempt, rs[n]) == Retry {
        assert after == before + [Entry(es[n].id, es[n].attempt + 1)];
        assert after[..|before|] == before;
      } else {
        assert after == before;
      }
    }
  }

  /** Every flush of a non-empty buffer spends from a budget that only submissions refill. */
  lemma FlushSpendsBudget<T(!new)>(p: Params<T>, cause: Cause, s: History<T>)
    requires WellBehaved(p) && Inv(p, s) && s.buffer != []
    ensures 0 <= Budget(Limit(p), Flush(p, cause, s).buffer) < Budget(Limit(p), s.buffer)
  {
    var rs := p.handler(|s.batches|, Values(s.accepted, s.buffer));
    SurvivorsSpend(Limit(p), p.maxRetries, s.buffer, rs);
    SurvivorsOk(Limit(p), p.maxRetries, s.buffer, rs);
    BudgetNonnegative(Limit(p), Survivors(p.maxRetries, s.buffer, rs));
  }

  function Ticks<T>(n: nat): seq<Action<T>> { seq(n, i => Ticked) }

  ghost predicate OlderThan(es: seq<Entry>, n: nat) {
    forall k :: 0 <= k < |es| ==> es[k].attempt >= n
  }

  ghost predicate AgedBy<T>(p: Params<T>, t: History<T>, n: nat) {
    Inv(p, t) && !t.stopped && OlderThan(t.buffer, n)
  }

  lemma NotOlder(es: seq<Entry>, limit: nat)
    requires es != [] && forall k :: 0 <= k < |es| ==> es[k].attempt <= limit
    ensures !OlderThan(es, limit + 1)
  {
    assert es[0].attempt <= limit;
  }

  lemma TickAges<T(!new)>(p: Params<T>, r: History<T>, n: nat)
    requires WellBehaved(p) && AgedBy(p, r, n)
    ensures AgedBy(p, Flush(p, Interval, r), n + 1)
  {
    FlushInv(p, Interval, r);
    if r.buffer != [] {
      var rs := p.handler(|r.batches|, Values(r.accepted, r.buffer));
      SelectIncluded(Retry, p.maxRetries, r.buffer, rs);
      var kept := Select(Retry, p.maxRetries, r.buffer, rs);
      forall k | 0 <= k < |kept| ensures kept[k].attempt >= n { assert kept[k] in kept; }
    }
  }

  lemma {:induction false} TicksAge<T(!new)>(p: Params<T>, s: History<T>, n: nat)
    requires WellBehaved(p) && AgedBy(p, s, 0)
    ensures AgedBy(p, Run(p, s, Ticks(n)), n)
  {
    if n > 0 {
      TicksAge(p, s, n - 1);
      assert Ticks<T>(n)[..n - 1] == Ticks(n - 1);
      TickAges(p, Run(p, s, Ticks(n - 1)), n - 1);
    }
  }

  /** Whatever the handler answers, one tick more than the retry limit empties the buffer of a running
      writer to which nothing is submitted meanwhile. */
  lemma DrainBound<T(!new)>(p: Params<T>, actions: seq<Action<T>>)
    requires WellBehaved(p) && p.batchSize >= 1 && !Run(p, Start(), actions).stopped
    ensures Run(p, Run(p, Start(), actions), Ticks(Limit(p) + 1)).buffer == []
  {
    RunInv(p, actions);
    TicksAge(p, Run(p, Start(), actions), Limit(p) + 1);
    var t := Run(p, Run(p, Start(), actions), Ticks(Limit(p) + 1));
    if t.buffer != [] { NotOlder(t.buffer, Limit(p)); }
  }
}
