/**
 Safety of the batch writer over every schedule and every handler: every accepted item is in exactly one
 place, the buffer stays within its size, and batches and buffer stay in acceptance order.
 */
module BatchWriterProofs {
  import opened BatchWriter

  // ---------- One batch ----------

  /** Oldest item first, and older items have failed at least as often. */
  ghost predicate Ordered(es: seq<Entry>) {
    forall i, j :: 0 <= i < j < |es| ==> es[i].id < es[j].id && es[i].attempt >= es[j].attempt
  }

  lemma {:induction false} SelectOrdered(f: Fate, maxRetries: int, es: seq<Entry>, rs: seq<bool>)
    requires |es| == |rs| && Ordered(es)
    ensures Ordered(Select(f, maxRetries, es, rs))
    ensures |Select(f, maxRetries, es, rs)| <= |es|
  {
    if |es| > 0 {
      var n := |es| - 1;
      SelectOrdered(f, maxRetries, es[..n], rs[..n]);
      SelectIncluded(f, maxRetries, es[..n], rs[..n]);
      var init := Select(f, maxRetries, es[..n], rs[..n]);
      forall i | 0 <= i < |init| ensures init[i].id < es[n].id && init[i].attempt >= es[n].attempt {
        assert init[i] in init;
      }
    }
  }

  lemma IdsConcat(a: seq<Entry>, b: seq<Entry>)
    ensures Ids(a + b) == Ids(a) + Ids(b)
  {
  }

  lemma SelectStep(f: Fate, maxRetries: int, es: seq<Entry>, rs: seq<bool>)
    requires 0 < |es| == |rs|
    ensures var n := |es| - 1;
            Ids(Select(f, maxRetries, es, rs)) ==
            Ids(Select(f, maxRetries, es[..n], rs[..n]))
            + (if FateOf(maxRetries, es[n].attempt, rs[n]) == f then [es[n].id] else [])
  {
  }

  lemma SurvivorIds(maxRetries: int, es: seq<Entry>, rs: seq<bool>)
    requires |es| == |rs|
    ensures Ids(Survivors(maxRetries, es, rs)) == Ids(Select(Retry, maxRetries, es, rs))
  {
  }

  lemma Deal(f: Fate, id: nat, all: seq<nat>, acks: seq<nat>, drops: seq<nat>, retries: seq<nat>)
    requires multiset(all) == multiset(acks) + multiset(drops) + multiset(retries)
    ensures multiset(all + [id]) == multiset(acks + (if Ack == f then [id] else []))
                                    + multiset(drops + (if Drop == f then [id] else []))
                                    + multiset(retries + (if Retry == f then [id] else []))
  {
    match f
    case Ack => assert drops + [] == drops && retries + [] == retries;
    case Drop => assert acks + [] == acks && retries + [] == retries;
    case Retry => assert drops + [] == drops && acks + [] == acks;
  }

  /** Every item of a batch is acknowledged, retried or dropped, exactly once. */
  lemma {:induction false} SelectPartition(maxRetries: int, es: seq<Entry>, rs: seq<bool>)
    requires |es| == |rs|
    ensures multiset(Ids(es)) == multiset(Ids(Select(Ack, maxRetries, es, rs)))
                                 + multiset(Ids(Select(Drop, maxRetries, es, rs)))
                                 + multiset(Ids(Select(Retry, maxRetries, es, rs)))
  {
    if |es| > 0 {
      var n := |es| - 1;
      SelectPartition(maxRetries, es[..n], rs[..n]);
      assert Ids(es) == Ids(es[..n]) + [es[n].id];
      SelectStep(Ack, maxRetries, es, rs);
      SelectStep(Drop, maxRetries, es, rs);
      SelectStep(Retry, maxRetries, es, rs);
      Deal(FateOf(maxRetries, es[n].attempt, rs[n]), es[n].id, Ids(es[..n]),
           Ids(Select(Ack, maxRetries, es[..n], rs[..n])),
           Ids(Select(Drop, maxRetries, es[..n], rs[..n])),
           Ids(Select(Retry, maxRetries, es[..n], rs[..n])));
    }
  }

  // ---------- Composing runs ----------

  lemma RunThen<T(!new)>(p: Params<T>, s: History<T>, actions: seq<Action<T>>, a: Action<T>)
    requires WellBehaved(p) && Known(s)
    ensures Run(p, s, actions + [a]) == Next(p, Run(p, s, actions), a)
  {
    assert (actions + [a])[..|actions|] == actions;
  }

  lemma {:induction false} RunConcat<T(!new)>(p: Params<T>, s: History<T>, a: seq<Action<T>>, b: seq<Action<T>>)
    requires WellBehaved(p) && Known(s)
    ensures Run(p, s, a + b) == Run(p, Run(p, s, a), b)
  {
    if |b| == 0 {
      assert a + b == a;
    } else {
      var init, last := b[..|b| - 1], b[|b| - 1];
      assert b == init + [last] && a + b == (a + init) + [last];
      RunConcat(p, s, a, init);
      RunThen(p, s, a + init, last);
      RunThen(p, Run(p, s, a), init, last);
    }
  }

  // ---------- The invariant of every reachable state ----------

  function Upto(n: nat): seq<nat> { seq(n, i => i) }

  lemma {:induction false} UptoOnce(n: nat)
    ensures forall id: nat :: multiset(Upto(n))[id] == if id < n then 1 else 0
  {
    if n == 0 {
      assert Upto(0) == [];
    } else {
      UptoOnce(n - 1);
      assert Upto(n) == Upto(n - 1) + [n - 1];
    }
  }

  /** Every accepted item is in exactly one place. */
  ghost predicate Conserved<T>(s: History<T>) {
    multiset(s.acked) + multiset(s.dropped) + multiset(s.abandoned) + multiset(Ids(s.buffer))
    == multiset(Upto(|s.accepted|))
  }

  function Limit<T>(p: Params<T>): nat { if p.maxRetries < 0 then 0 else p.maxRetries }

  ghost predicate BatchOk(batchSize: nat, accepted: nat, b: Batch) {
    && 0 < |b.entries| == |b.responses| <= batchSize
    && (b.cause == FullBuffer ==> |b.entries| == batchSize)
    && Ordered(b.entries)
    && forall k :: 0 <= k < |b.entries| ==> b.entries[k].id < accepted
  }

  ghost predicate Inv<T>(p: Params<T>, s: History<T>) {
    && |s.buffer| <= p.batchSize
    && Known(s)
    && Ordered(s.buffer)
    && (forall k :: 0 <= k < |s.buffer| ==> s.buffer[k].attempt <= Limit(p))
    && (forall k :: 0 <= k < |s.batches| ==> BatchOk(p.batchSize, |s.accepted|, s.batches[k]))
    && Conserved(s)
  }

  lemma SurvivorsOk(limit: nat, maxRetries: int, es: seq<Entry>, rs: seq<bool>)
    requires |es| == |rs| && Ordered(es) && maxRetries <= limit
    ensures var kept := Survivors(maxRetries, es, rs);
            && Ordered(kept) && |kept| <= |es|
            && forall k :: 0 <= k < |kept| ==> 1 <= kept[k].attempt <= limit
  {
    SelectOrdered(Retry, maxRetries, es, rs);
    SelectIncluded(Retry, maxRetries, es, rs);
    var retried := Select(Retry, maxRetries, es, rs);
    forall k | 0 <= k < |retried| ensures retried[k].attempt < limit { assert retried[k] in retried; }
  }

  ghost predicate Answered(batches: seq<Batch>) {
    forall k :: 0 <= k < |batches| ==> |batches[k].entries| == |batches[k].responses|
  }

  lemma FlushConserves<T(!new)>(p: Params<T>, cause: Cause, s: History<T>)
    requires WellBehaved(p) && Known(s) && Conserved(s)
    ensures Conserved(Flush(p, cause, s))
  {
    if s.buffer != [] {
      var rs := p.handler(|s.batches|, Values(s.accepted, s.buffer));
      SelectPartition(p.maxRetries, s.buffer, rs);
      SurvivorIds(p.maxRetries, s.buffer, rs);
    }
  }

  lemma FlushInv<T(!new)>(p: Params<T>, cause: Cause, s: History<T>)
    requires WellBehaved(p) && Inv(p, s)
    requires cause == FullBuffer ==> |s.buffer| == p.batchSize
    ensures Inv(p, Flush(p, cause, s))
  {
    FlushConserves(p, cause, s);
    if s.buffer != [] {
      SurvivorsOk(Limit(p), p.maxRetries, s.buffer, p.handler(|s.batches|, Values(s.accepted, s.buffer)));
    }
  }

  lemma MakeRoomInv<T(!new)>(p: Params<T>, s: History<T>)
    requires WellBehaved(p) && p.batchSize >= 1 && Inv(p, s)
    ensures Inv(p, MakeRoom(p, s)) && |MakeRoom(p, s).buffer| < p.batchSize
  {
    if |s.buffer| >= p.batchSize {
      FlushInv(p, FullBuffer, s);
      assert Ids([]) == [];
    }
  }

  lemma AcceptConserves<T>(r: History<T>, v: T)
    requires Conserved(r)
    ensures Conserved(r.(accepted := r.accepted + [v], buffer := r.buffer + [Entry(|r.accepted|, 0)]))
  {
    IdsConcat(r.buffer, [Entry(|r.accepted|, 0)]);
    assert Ids([Entry(|r.accepted|, 0)]) == [|r.accepted|];
    assert Upto(|r.accepted| + 1) == Upto(|r.accepted|) + [|r.accepted|];
  }

  lemma AcceptInv<T>(p: Params<T>, r: History<T>, v: T)
    requires Inv(p, r) && |r.buffer| < p.batchSize
    ensures Inv(p, r.(accepted := r.accepted + [v], buffer := r.buffer + [Entry(|r.accepted|, 0)]))
  {
    AcceptConserves(r, v);
  }

  lemma NextInv<T(!new)>(p: Params<T>, s: History<T>, a: Action<T>)
    requires WellBehaved(p) && p.batchSize >= 1 && Inv(p, s)
    ensures Inv(p, Next(p, s, a))
  {
    if !s.stopped {
      match a
      case Submitted(v) =>
        MakeRoomInv(p, s);
        AcceptInv(p, MakeRoom(p, s), v);
      case Ticked => FlushInv(p, Interval, s);
      case Stopped => FlushInv(p, Shutdown, s);
    }
  }

  lemma StartInv<T>(p: Params<T>)
    ensures Inv(p, Start())
  {
    assert Upto(0) == [];
    assert Ids([]) == [];
  }

  /** Conservation, bounds and order hold after every schedule, whatever the handler answers. */
  lemma {:induction false} RunInv<T(!new)>(p: Params<T>, actions: seq<Action<T>>)
    requires WellBehaved(p) && p.batchSize >= 1
    ensures Inv(p, Run(p, Start(), actions))
  {
    if |actions| == 0 {
      StartInv(p);
    } else {
      var n := |actions| - 1;
      RunInv(p, actions[..n]);
      NextInv(p, Run(p, Start(), actions[..n]), actions[n]);
    }
  }
}
