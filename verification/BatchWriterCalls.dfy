/**
 What the batch writer asks its handler and what it makes of the answers: each turn of the select loop
 calls the handler at most once, with the values of the whole buffer, and the answer to each position
 decides what happens to the item there.
 */
module BatchWriterCalls {
  import opened BatchWriter
  import opened BatchWriterProofs
  import opened BatchWriterRetries

  // ---------- One turn ----------

  /** This turn has nothing to hand over, or no reason to. */
  predicate NoCall<T>(p: Params<T>, s: History<T>, a: Action<T>) {
    s.stopped || s.buffer == [] || (a.Submitted? && |s.buffer| < p.batchSize)
  }

  function CauseOf<T>(a: Action<T>): Cause {
    match a case Submitted(_) => FullBuffer case Ticked => Interval case Stopped => Shutdown
  }

  /** The accepted items that these entries name, in order. */
  function Named<T>(accepted: seq<T>, es: seq<Entry>): seq<T>
    requires forall i :: 0 <= i < |es| ==> es[i].id < |accepted|
  {
    seq(|es|, i requires 0 <= i < |es| => accepted[es[i].id])
  }

  lemma NamedStays<T>(accepted: seq<T>, more: seq<T>, es: seq<Entry>)
    requires forall i :: 0 <= i < |es| ==> es[i].id < |accepted|
    requires accepted <= more
    ensures Named(accepted, es) == Named(more, es)
  {
  }

  /** The handler's answer about the item at position `i` of the buffer, if it is called now. */
  ghost predicate SaysYes<T(!new)>(p: Params<T>, s: History<T>, i: nat)
    requires WellBehaved(p) && Known(s) && i < |s.buffer|
  {
    p.handler(|s.batches|, Named(s.accepted, s.buffer))[i]
  }

  lemma FlushBatch<T(!new)>(p: Params<T>, cause: Cause, s: History<T>)
    requires WellBehaved(p) && Known(s) && s.buffer != []
    ensures Flush(p, cause, s).batches
            == s.batches + [Batch(cause, s.buffer, p.handler(|s.batches|, Named(s.accepted, s.buffer)))]
  {
    assert Values(s.accepted, s.buffer) == Named(s.accepted, s.buffer);
  }

  /** A turn without a call changes nothing but what it accepts. */
  lemma QuietTurn<T(!new)>(p: Params<T>, s: History<T>, a: Action<T>)
    requires WellBehaved(p) && Known(s) && NoCall(p, s, a)
    ensures var t := Next(p, s, a);
            && t.batches == s.batches && t.acked == s.acked && t.dropped == s.dropped && t.abandoned == s.abandoned
            && (s.stopped || !a.Submitted? ==> t.accepted == s.accepted && t.buffer == s.buffer)
            && (!s.stopped && a.Submitted? ==>
                  && t.accepted == s.accepted + [a.item]
                  && t.buffer == s.buffer + [Entry(|s.accepted|, 0)])
            && (t.stopped <==> s.stopped || a.Stopped?)
  {
    assert Ids([]) == [] && s.abandoned + [] == s.abandoned;
  }

  /** Any other turn calls the handler once, with the values of the whole buffer in order, and records what
      it answered. */
  lemma TurnCalls<T(!new)>(p: Params<T>, s: History<T>, a: Action<T>)
    requires WellBehaved(p) && Known(s) && !NoCall(p, s, a)
    ensures Next(p, s, a).batches
            == s.batches + [Batch(CauseOf(a), s.buffer, p.handler(|s.batches|, Named(s.accepted, s.buffer)))]
    ensures Next(p, s, a).accepted == if a.Submitted? then s.accepted + [a.item] else s.accepted
    ensures Next(p, s, a).stopped <==> a.Stopped?
  {
    FlushBatch(p, CauseOf(a), s);
  }

  /** What happens to the item at one position: a success acknowledges it, a failure at the limit drops it,
      any other failure keeps it for a retry, or abandons it if the turn was a submission. */
  lemma TurnFates<T(!new)>(p: Params<T>, s: History<T>, a: Action<T>, i: nat)
    requires WellBehaved(p) && Known(s) && !NoCall(p, s, a) && i < |s.buffer|
    ensures var t, e := Next(p, s, a), s.buffer[i];
            && (SaysYes(p, s, i) ==> e.id in t.acked)
            && (!SaysYes(p, s, i) && e.attempt >= p.maxRetries ==> e.id in t.dropped)
            && (!SaysYes(p, s, i) && e.attempt < p.maxRetries ==>
                  if a.Submitted? then e.id in t.abandoned else Entry(e.id, e.attempt + 1) in t.buffer)
  {
    FlushFates(p, CauseOf(a), s, i);
    var f, e := Flush(p, CauseOf(a), s), s.buffer[i];
    if a.Submitted? && Entry(e.id, e.attempt + 1) in f.buffer { IdIn(f.buffer, Entry(e.id, e.attempt + 1)); }
  }

  lemma IdIn(es: seq<Entry>, e: Entry)
    requires e in es
    ensures e.id in Ids(es)
  {
    var k :| 0 <= k < |es| && es[k] == e;
    assert Ids(es)[k] == e.id;
  }

  lemma AgedIn(es: seq<Entry>, e: Entry)
    requires e in es
    ensures Entry(e.id, e.attempt + 1) in Aged(es)
  {
    var k :| 0 <= k < |es| && es[k] == e;
    assert Aged(es)[k] == Entry(e.id, e.attempt + 1);
  }

  lemma FlushFates<T(!new)>(p: Params<T>, cause: Cause, s: History<T>, i: nat)
    requires WellBehaved(p) && Known(s) && i < |s.buffer|
    ensures var f, e := Flush(p, cause, s), s.buffer[i];
            && (SaysYes(p, s, i) ==> e.id in f.acked)
            && (!SaysYes(p, s, i) && e.attempt >= p.maxRetries ==> e.id in f.dropped)
            && (!SaysYes(p, s, i) && e.attempt < p.maxRetries ==> Entry(e.id, e.attempt + 1) in f.buffer)
  {
    assert Values(s.accepted, s.buffer) == Named(s.accepted, s.buffer);
    var rs := p.handler(|s.batches|, Named(s.accepted, s.buffer));
    var f := if rs[i] then Ack else if s.buffer[i].attempt >= p.maxRetries then Drop else Retry;
    SelectIncluded(f, p.maxRetries, s.buffer, rs);
    var chosen := Select(f, p.maxRetries, s.buffer, rs);
    assert s.buffer[i] in chosen;
    if f == Retry { AgedIn(chosen, s.buffer[i]); } else { IdIn(chosen, s.buffer[i]); }
  }

  // ---------- Whole runs ----------

  /** The recorded answers are those the handler gave to the accepted values that the batch names. */
  ghost predicate HandlerSaid<T(!new)>(p: Params<T>, s: History<T>, k: nat)
    requires WellBehaved(p) && k < |s.batches|
  {
    var es := s.batches[k].entries;
    && (forall i :: 0 <= i < |es| ==> es[i].id < |s.accepted|)
    && s.batches[k].responses == p.handler(k, Named(s.accepted, es))
  }

  lemma TurnExtends<T(!new)>(p: Params<T>, s: History<T>, a: Action<T>)
    requires WellBehaved(p) && Known(s)
    ensures s.accepted <= Next(p, s, a).accepted && s.batches <= Next(p, s, a).batches
  {
    if NoCall(p, s, a) { QuietTurn(p, s, a); } else { TurnCalls(p, s, a); }
  }

  ghost predicate AllSaid<T(!new)>(p: Params<T>, s: History<T>)
    requires WellBehaved(p)
  {
    forall k :: 0 <= k < |s.batches| ==> HandlerSaid(p, s, k)
  }

  lemma NextSaid<T(!new)>(p: Params<T>, s: History<T>, a: Action<T>)
    requires WellBehaved(p) && Known(s) && AllSaid(p, s)
    ensures AllSaid(p, Next(p, s, a))
  {
    var t := Next(p, s, a);
    TurnExtends(p, s, a);
    forall k | 0 <= k < |t.batches| ensures HandlerSaid(p, t, k) {
      if k < |s.batches| {
        assert HandlerSaid(p, s, k) && t.batches[k] == s.batches[k];
        NamedStays(s.accepted, t.accepted, s.batches[k].entries);
      } else {
        NewSaid(p, s, a, k);
      }
    }
  }

  lemma NewSaid<T(!new)>(p: Params<T>, s: History<T>, a: Action<T>, k: nat)
    requires WellBehaved(p) && Known(s) && |s.batches| <= k < |Next(p, s, a).batches|
    ensures HandlerSaid(p, Next(p, s, a), k)
  {
    if NoCall(p, s, a) {
      QuietTurn(p, s, a);
      assert false;
    } else {
      TurnCalls(p, s, a);
      TurnExtends(p, s, a);
      NamedStays(s.accepted, Next(p, s, a).accepted, s.buffer);
    }
  }

  /** Over every schedule: the answers recorded for the k-th batch are the handler's answers to its k-th
      call, which was given the accepted values that the batch names, in order. */
  lemma {:induction false} AnswersAreHandlers<T(!new)>(p: Params<T>, actions: seq<Action<T>>)
    requires WellBehaved(p)
    ensures AllSaid(p, Run(p, Start(), actions))
  {
    if |actions| > 0 {
      var n := |actions| - 1;
      AnswersAreHandlers(p, actions[..n]);
      NextSaid(p, Run(p, Start(), actions[..n]), actions[n]);
    }
  }

  /** One call of the handler was answered with success for this item. */
  ghost predicate SucceededIn(b: Batch, id: nat)
    requires |b.entries| == |b.responses|
  {
    exists i :: 0 <= i < |b.entries| && b.entries[i].id == id && b.responses[i]
  }

  ghost predicate Succeeded(batches: seq<Batch>, id: nat)
    requires Answered(batches)
  {
    exists k :: 0 <= k < |batches| && SucceededIn(batches[k], id)
  }

  lemma {:induction false} YesInBatchIff(es: seq<Entry>, rs: seq<bool>, id: nat)
    requires |es| == |rs|
    ensures true in InBatch(es, rs, id) <==> exists i :: 0 <= i < |es| && es[i].id == id && rs[i]
  {
    if |es| > 0 {
      var n := |es| - 1;
      YesInBatchIff(es[..n], rs[..n], id);
      if i :| 0 <= i < |es| && es[i].id == id && rs[i] {
        if i < n { assert es[..n][i].id == id && rs[..n][i]; }
      }
    }
  }

  lemma {:induction false} YesInOutcomesIff(batches: seq<Batch>, id: nat)
    requires Answered(batches)
    ensures true in Outcomes(batches, id) <==> Succeeded(batches, id)
  {
    if |batches| > 0 {
      var n := |batches| - 1;
      YesInOutcomesIff(batches[..n], id);
      YesInBatchIff(batches[n].entries, batches[n].responses, id);
      if k :| 0 <= k < |batches| && SucceededIn(batches[k], id) {
        if k < n { assert SucceededIn(batches[..n][k], id); }
      }
      if k :| 0 <= k < n && SucceededIn(batches[..n][k], id) { assert SucceededIn(batches[k], id); }
    }
  }

  /** An accepted item is acknowledged if and only if the handler, in one of its calls, answered success at a
      position where it was handed this item. */
  lemma AckedIffHandlerSucceeded<T(!new)>(p: Params<T>, actions: seq<Action<T>>, id: nat)
    requires WellBehaved(p) && p.batchSize >= 1 && id < |Run(p, Start(), actions).accepted|
    ensures var s := Run(p, Start(), actions);
            && Answered(s.batches) && AllSaid(p, s)
            && (id in s.acked <==> Succeeded(s.batches, id))
  {
    FateFromOutcomes(p, actions, id);
    AnswersAreHandlers(p, actions);
    YesInOutcomesIff(Run(p, Start(), actions).batches, id);
  }
}
