/**
 What a batch writer run loses: which flushes lose which items, runs that do lose some, and for which
 parameters no run does.
 */
module BatchWriterLosses {
  import opened BatchWriter
  import opened BatchWriterProofs
  import opened BatchWriterDelivery

  // ---------- Exactly what is lost ----------

  /** The retry survivors of all flushes of one cause, in order. */
  function Kept(cause: Cause, maxRetries: int, batches: seq<Batch>): seq<nat>
    requires Answered(batches)
  {
    if |batches| == 0 then []
    else
      var n := |batches| - 1;
      Kept(cause, maxRetries, batches[..n])
      + (if batches[n].cause == cause then Ids(Survivors(maxRetries, batches[n].entries, batches[n].responses)) else [])
  }

  lemma KeptStep(cause: Cause, maxRetries: int, batches: seq<Batch>, b: Batch)
    requires Answered(batches) && |b.entries| == |b.responses|
    ensures Answered(batches + [b])
    ensures Kept(cause, maxRetries, batches + [b])
            == Kept(cause, maxRetries, batches)
               + (if b.cause == cause then Ids(Survivors(maxRetries, b.entries, b.responses)) else [])
  {
    assert (batches + [b])[..|batches|] == batches;
  }

  /** What full-buffer flushes kept for a retry has been abandoned, what the shutdown flush kept is
      stranded in the buffer. */
  ghost predicate LossesExact<T>(p: Params<T>, s: History<T>)
    requires Answered(s.batches)
  {
    && s.abandoned == Kept(FullBuffer, p.maxRetries, s.batches)
    && (if s.stopped then Ids(s.buffer) else []) == Kept(Shutdown, p.maxRetries, s.batches)
  }

  lemma FlushKeeps<T(!new)>(p: Params<T>, cause: Cause, s: History<T>, c: Cause)
    requires WellBehaved(p) && Known(s) && Answered(s.batches)
    ensures var t := Flush(p, cause, s);
            && Answered(t.batches) && t.abandoned == s.abandoned && t.stopped == s.stopped
            && Kept(c, p.maxRetries, t.batches)
               == Kept(c, p.maxRetries, s.batches) + (if c == cause then Ids(t.buffer) else [])
  {
    if s.buffer == [] {
      assert Ids([]) == [];
    } else {
      KeptStep(c, p.maxRetries, s.batches,
               Batch(cause, s.buffer, p.handler(|s.batches|, Values(s.accepted, s.buffer))));
    }
  }

  lemma SubmittedLosses<T(!new)>(p: Params<T>, s: History<T>, v: T)
    requires WellBehaved(p) && Known(s) && Answered(s.batches) && LossesExact(p, s) && !s.stopped
    ensures Answered(Next(p, s, Submitted(v)).batches) && LossesExact(p, Next(p, s, Submitted(v)))
  {
    var r := MakeRoom(p, s);
    FlushKeeps(p, FullBuffer, s, FullBuffer);
    FlushKeeps(p, FullBuffer, s, Shutdown);
    assert Answered(r.batches) && LossesExact(p, r) && !r.stopped;
  }

  lemma TickedLosses<T(!new)>(p: Params<T>, s: History<T>)
    requires WellBehaved(p) && Known(s) && Answered(s.batches) && LossesExact(p, s) && !s.stopped
    ensures Answered(Flush(p, Interval, s).batches) && LossesExact(p, Flush(p, Interval, s))
  {
    FlushKeeps(p, Interval, s, FullBuffer);
    FlushKeeps(p, Interval, s, Shutdown);
  }

  lemma StopStrands<T(!new)>(p: Params<T>, s: History<T>)
    requires WellBehaved(p) && Known(s) && !s.stopped
    ensures Next(p, s, Stopped) == Flush(p, Shutdown, s).(stopped := true)
  {
  }

  lemma StoppedLosses<T(!new)>(p: Params<T>, s: History<T>)
    requires WellBehaved(p) && Known(s) && Answered(s.batches) && LossesExact(p, s) && !s.stopped
    ensures Answered(Next(p, s, Stopped).batches) && LossesExact(p, Next(p, s, Stopped))
  {
    StopStrands(p, s);
    FlushKeeps(p, Shutdown, s, FullBuffer);
    FlushKeeps(p, Shutdown, s, Shutdown);
  }

  lemma NextLosses<T(!new)>(p: Params<T>, s: History<T>, a: Action<T>)
    requires WellBehaved(p) && Known(s) && Answered(s.batches) && LossesExact(p, s)
    ensures Answered(Next(p, s, a).batches) && LossesExact(p, Next(p, s, a))
  {
    if !s.stopped {
      match a
      case Submitted(v) => SubmittedLosses(p, s, v);
      case Ticked => TickedLosses(p, s);
      case Stopped => StoppedLosses(p, s);
    }
  }

  /** At every moment of every run: the abandoned items, and after shutdown the stranded ones, are
      precisely the retry survivors of its full-buffer flushes and of its shutdown flush, in order. */
  lemma {:induction false} RunLosses<T(!new)>(p: Params<T>, actions: seq<Action<T>>)
    requires WellBehaved(p)
    ensures Answered(Run(p, Start(), actions).batches) && LossesExact(p, Run(p, Start(), actions))
  {
    if |actions| > 0 {
      var n := |actions| - 1;
      RunLosses(p, actions[..n]);
      NextLosses(p, Run(p, Start(), actions[..n]), actions[n]);
    }
  }

  /** The batch has no failure that asks for a retry. */
  ghost predicate Harmless(maxRetries: int, b: Batch)
    requires |b.entries| == |b.responses|
  {
    forall i :: 0 <= i < |b.entries| ==> FateOf(maxRetries, b.entries[i].attempt, b.responses[i]) != Retry
  }

  /** No flush of this cause reported a failure that asks for a retry. */
  ghost predicate NoRetryable(cause: Cause, maxRetries: int, batches: seq<Batch>)
    requires Answered(batches)
  {
    forall k :: 0 <= k < |batches| && batches[k].cause == cause ==> Harmless(maxRetries, batches[k])
  }

  lemma HarmlessIff(maxRetries: int, b: Batch)
    requires |b.entries| == |b.responses|
    ensures Harmless(maxRetries, b) <==> Ids(Survivors(maxRetries, b.entries, b.responses)) == []
  {
    SelectIncluded(Retry, maxRetries, b.entries, b.responses);
    SurvivorIds(maxRetries, b.entries, b.responses);
    var kept := Select(Retry, maxRetries, b.entries, b.responses);
    assert |Ids(kept)| == |kept|;
    if kept != [] { assert kept[0] in kept; }
  }

  lemma NoRetryableStep(cause: Cause, maxRetries: int, batches: seq<Batch>, b: Batch)
    requires Answered(batches) && |b.entries| == |b.responses|
    ensures Answered(batches + [b])
    ensures NoRetryable(cause, maxRetries, batches + [b])
            <==> NoRetryable(cause, maxRetries, batches) && (b.cause == cause ==> Harmless(maxRetries, b))
  {
    var all := batches + [b];
    assert all[|batches|] == b;
    assert forall k :: 0 <= k < |batches| ==> all[k] == batches[k];
  }

  lemma {:induction false} NothingKeptIff(cause: Cause, maxRetries: int, batches: seq<Batch>)
    requires Answered(batches)
    ensures Kept(cause, maxRetries, batches) == [] <==> NoRetryable(cause, maxRetries, batches)
  {
    if |batches| > 0 {
      var n := |batches| - 1;
      NothingKeptIff(cause, maxRetries, batches[..n]);
      HarmlessIff(maxRetries, batches[n]);
      NoRetryableStep(cause, maxRetries, batches[..n], batches[n]);
      assert batches == batches[..n] + [batches[n]];
    }
  }

  /** At every moment of every run, nothing has been abandoned if and only if no full-buffer flush
      reported a failure that asks for a retry. */
  lemma NothingAbandonedIff<T(!new)>(p: Params<T>, actions: seq<Action<T>>)
    requires WellBehaved(p)
    ensures var s := Run(p, Start(), actions);
            && Answered(s.batches)
            && (s.abandoned == [] <==> NoRetryable(FullBuffer, p.maxRetries, s.batches))
  {
    RunLosses(p, actions);
    NothingKeptIff(FullBuffer, p.maxRetries, Run(p, Start(), actions).batches);
  }

  /** Every accepted item has been acknowledged or given up by the retry rule. */
  ghost predicate Settled<T>(s: History<T>) {
    multiset(s.acked) + multiset(s.dropped) == multiset(Upto(|s.accepted|))
  }

  lemma SettledIff<T>(s: History<T>)
    requires Conserved(s)
    ensures Settled(s) <==> s.abandoned == [] && Ids(s.buffer) == []
  {
    var settled, lost := multiset(s.acked) + multiset(s.dropped), multiset(s.abandoned) + multiset(Ids(s.buffer));
    assert settled + lost == multiset(Upto(|s.accepted|));
    assert |lost| == |s.abandoned| + |Ids(s.buffer)|;
    if Settled(s) {
      assert |settled| + |lost| == |settled|;
    }
    if |lost| == 0 {
      assert lost == multiset{};
    }
  }

  /** A stopped writer has settled every accepted item if and only if neither a full-buffer flush nor the
      shutdown flush reported a failure that asks for a retry. */
  lemma NothingLostIff<T(!new)>(p: Params<T>, actions: seq<Action<T>>)
    requires WellBehaved(p) && p.batchSize >= 1 && Run(p, Start(), actions).stopped
    ensures var s := Run(p, Start(), actions);
            && Answered(s.batches)
            && (Settled(s) <==> NoRetryable(FullBuffer, p.maxRetries, s.batches)
                                && NoRetryable(Shutdown, p.maxRetries, s.batches))
  {
    RunInv(p, actions);
    RunLosses(p, actions);
    var s := Run(p, Start(), actions);
    SettledIff(s);
    NothingKeptIff(FullBuffer, p.maxRetries, s.batches);
    NothingKeptIff(Shutdown, p.maxRetries, s.batches);
  }

  // ---------- Runs that lose something ----------

  function NewEntries(from: nat, n: nat): seq<Entry> { seq(n, (i: nat) => Entry(from + i, 0)) }

  /** The buffer holds these values, accepted last, each for the first time. */
  ghost predicate Filled<T>(s: History<T>, from: nat, vs: seq<T>) {
    && !s.stopped && s.buffer == NewEntries(from, |vs|)
    && from + |vs| == |s.accepted| && s.accepted[from..] == vs
  }

  lemma OneFits<T(!new)>(p: Params<T>, s: History<T>, from: nat, vs: seq<T>, v: T)
    requires WellBehaved(p) && Known(s) && Filled(s, from, vs) && |vs| < p.batchSize
    ensures var t := Next(p, s, Submitted(v));
            Filled(t, from, vs + [v]) && t.batches == s.batches && t.accepted == s.accepted + [v]
  {
    assert NewEntries(from, |vs| + 1) == NewEntries(from, |vs|) + [Entry(from + |vs|, 0)];
  }

  /** Some schedule leads from one state to the other. */
  ghost predicate Reaches<T(!new)>(p: Params<T>, s: History<T>, t: History<T>)
    requires WellBehaved(p) && Known(s)
  {
    exists actions: seq<Action<T>> :: Run(p, s, actions) == t
  }

  lemma ReachesSelf<T(!new)>(p: Params<T>, s: History<T>)
    requires WellBehaved(p) && Known(s)
    ensures Reaches(p, s, s)
  {
    assert Run(p, s, []) == s;
  }

  lemma ReachesNext<T(!new)>(p: Params<T>, s: History<T>, t: History<T>, a: Action<T>)
    requires WellBehaved(p) && Known(s) && Known(t) && Reaches(p, s, t)
    ensures Reaches(p, s, Next(p, t, a))
  {
    var actions :| Run(p, s, actions) == t;
    RunThen(p, s, actions, a);
    assert Run(p, s, actions + [a]) == Next(p, t, a);
  }

  lemma ReachesOn<T(!new)>(p: Params<T>, s: History<T>, r: History<T>, t: History<T>)
    requires WellBehaved(p) && Known(s) && Known(r) && Reaches(p, s, r) && Reaches(p, r, t)
    ensures Reaches(p, s, t)
  {
    var first :| Run(p, s, first) == r;
    var rest :| Run(p, r, rest) == t;
    RunConcat(p, s, first, rest);
    assert Run(p, s, first + rest) == t;
  }

  /** Submissions that fit into an empty buffer stay there. */
  lemma {:induction false} Fill<T(!new)>(p: Params<T>, s: History<T>, vs: seq<T>) returns (t: History<T>)
    requires WellBehaved(p) && s.buffer == [] && !s.stopped && |vs| <= p.batchSize
    ensures Reaches(p, s, t) && Known(t)
    ensures Filled(t, |s.accepted|, vs) && t.batches == s.batches && t.accepted == s.accepted + vs
  {
    if |vs| == 0 {
      t := s;
      ReachesSelf(p, s);
      assert s.accepted + vs == s.accepted && NewEntries(|s.accepted|, 0) == [];
    } else {
      var n := |vs| - 1;
      var r := Fill(p, s, vs[..n]);
      assert vs == vs[..n] + [vs[n]];
      assert s.accepted + vs == (s.accepted + vs[..n]) + [vs[n]];
      ReachesNext(p, s, r, Submitted(vs[n]));
      OneFits(p, r, |s.accepted|, vs[..n], vs[n]);
      t := Next(p, r, Submitted(vs[n]));
    }
  }

  lemma FilledValues<T>(s: History<T>, from: nat, vs: seq<T>)
    requires Filled(s, from, vs)
    ensures Known(s) && Values(s.accepted, s.buffer) == vs
  {
    assert forall k :: 0 <= k < |vs| ==> s.accepted[from + k] == s.accepted[from..][k];
  }

  /** If a first attempt fails and there are retries, the item survives the flush. */
  lemma FailedSurvives<T(!new)>(p: Params<T>, cause: Cause, s: History<T>, from: nat, vs: seq<T>, i: nat)
    requires WellBehaved(p) && p.maxRetries >= 1 && Filled(s, from, vs)
    requires i < |vs| && !p.handler(|s.batches|, vs)[i]
    ensures Known(s) && from + i in Ids(Flush(p, cause, s).buffer)
  {
    FilledValues(s, from, vs);
    var rs := p.handler(|s.batches|, vs);
    SelectIncluded(Retry, p.maxRetries, s.buffer, rs);
    SurvivorIds(p.maxRetries, s.buffer, rs);
    var kept := Select(Retry, p.maxRetries, s.buffer, rs);
    assert s.buffer[i] in kept;
    var j :| 0 <= j < |kept| && kept[j] == s.buffer[i];
    assert Ids(kept)[j] == from + i;
  }

  lemma SubmitAbandons<T(!new)>(p: Params<T>, s: History<T>, next: T)
    requires WellBehaved(p) && Known(s) && !s.stopped && |s.buffer| >= p.batchSize
    ensures Next(p, s, Submitted(next)).abandoned == s.abandoned + Ids(Flush(p, FullBuffer, s).buffer)
  {
    assert Flush(p, FullBuffer, s).abandoned == s.abandoned;
  }

  /** These were accepted, and this one was abandoned. */
  ghost predicate Abandoned<T>(s: History<T>, accepted: seq<T>, id: nat) {
    s.accepted == accepted && id in s.abandoned
  }

  /** The writer has stopped with these accepted and this one still in the buffer. */
  ghost predicate Stranded<T>(s: History<T>, accepted: seq<T>, id: nat) {
    s.stopped && s.accepted == accepted && id in Ids(s.buffer)
  }

  lemma FullLoses<T(!new)>(p: Params<T>, s: History<T>, from: nat, vs: seq<T>, i: nat, next: T)
    requires WellBehaved(p) && p.maxRetries >= 1 && Filled(s, from, vs)
    requires i < |vs| == p.batchSize && !p.handler(|s.batches|, vs)[i]
    ensures Known(s) && Abandoned(Next(p, s, Submitted(next)), s.accepted + [next], from + i)
  {
    FailedSurvives(p, FullBuffer, s, from, vs, i);
    SubmitAbandons(p, s, next);
  }

  lemma StopLoses<T(!new)>(p: Params<T>, s: History<T>, from: nat, vs: seq<T>, i: nat)
    requires WellBehaved(p) && p.maxRetries >= 1 && Filled(s, from, vs)
    requires i < |vs| && !p.handler(|s.batches|, vs)[i]
    ensures Known(s) && Stranded(Next(p, s, Stopped), s.accepted, from + i)
  {
    FailedSurvives(p, Shutdown, s, from, vs, i);
    StopStrands(p, s);
  }

  /** A failure of a full buffer: the next submission abandons the item although it has retries left. */
  lemma FullBufferLoses<T(!new)>(p: Params<T>, s: History<T>, vs: seq<T>, i: nat, next: T) returns (t: History<T>)
    requires WellBehaved(p) && p.maxRetries >= 1 && s.buffer == [] && !s.stopped
    requires i < |vs| == p.batchSize && !p.handler(|s.batches|, vs)[i]
    ensures Reaches(p, s, t) && Abandoned(t, s.accepted + vs + [next], |s.accepted| + i)
  {
    var r := Fill(p, s, vs);
    FullLoses(p, r, |s.accepted|, vs, i, next);
    ReachesNext(p, s, r, Submitted(next));
    t := Next(p, r, Submitted(next));
  }

  /** A failure of the shutdown flush strands the item although it has retries left. */
  lemma ShutdownLoses<T(!new)>(p: Params<T>, s: History<T>, vs: seq<T>, i: nat) returns (t: History<T>)
    requires WellBehaved(p) && p.maxRetries >= 1 && s.buffer == [] && !s.stopped
    requires i < |vs| <= p.batchSize && !p.handler(|s.batches|, vs)[i]
    ensures Reaches(p, s, t) && Stranded(t, s.accepted + vs, |s.accepted| + i)
  {
    var r := Fill(p, s, vs);
    StopLoses(p, r, |s.accepted|, vs, i);
    ReachesNext(p, s, r, Stopped);
    t := Next(p, r, Stopped);
  }

  // ---------- Parameters under which no run loses anything ----------

  ghost predicate Acknowledges<T(!new)>(p: Params<T>, call: nat)
    requires WellBehaved(p)
  {
    forall batch: seq<T>, i :: 1 <= |batch| <= p.batchSize && 0 <= i < |batch| ==> p.handler(call, batch)[i]
  }

  ghost predicate Spent<T>(s: History<T>, n: nat) { s.buffer == [] && !s.stopped && |s.batches| == n }

  /** As long as the handler acknowledges everything, any number of calls can be spent, by as many items,
      each flushed by a tick of its own. */
  lemma {:induction false} SpendCalls<T(!new)>(p: Params<T>, v: T, n: nat) returns (t: History<T>)
    requires WellBehaved(p) && p.batchSize >= 1 && forall m: nat :: m < n ==> Acknowledges(p, m)
    ensures Spent(t, n) && Reaches(p, Start(), t)
  {
    if n == 0 {
      t := Start();
      ReachesSelf(p, t);
    } else {
      var s := SpendCalls(p, v, n - 1);
      SpendCall(p, s, v);
      ReachesNext(p, Start(), s, Submitted(v));
      ReachesNext(p, Start(), Next(p, s, Submitted(v)), Ticked);
      t := Next(p, Next(p, s, Submitted(v)), Ticked);
    }
  }

  lemma SpendCall<T(!new)>(p: Params<T>, s: History<T>, v: T)
    requires WellBehaved(p) && p.batchSize >= 1 && s.buffer == [] && !s.stopped && Acknowledges(p, |s.batches|)
    ensures Spent(Next(p, Next(p, s, Submitted(v)), Ticked), |s.batches| + 1)
  {
    var r := Next(p, s, Submitted(v));
    assert r.buffer == [Entry(|s.accepted|, 0)] && r.batches == s.batches;
    GoodFlush(p, Interval, r, p.handler(|s.batches|, Values(r.accepted, r.buffer)));
  }

  /** The first call that can fail, made by the shutdown flush. */
  lemma {:induction false} FailureLoses<T(!new)>(p: Params<T>, call: nat) returns (t: History<T>)
    requires WellBehaved(p) && p.batchSize >= 1 && p.maxRetries >= 1 && !Acknowledges(p, call)
    ensures Reaches(p, Start(), t) && t.stopped && Ids(t.buffer) != []
  {
    if earlier: nat :| earlier < call && !Acknowledges(p, earlier) {
      t := FailureLoses(p, earlier);
    } else {
      var vs: seq<T>, i :| 1 <= |vs| <= p.batchSize && 0 <= i < |vs| && !p.handler(call, vs)[i];
      var s := SpendCalls(p, vs[0], call);
      t := ShutdownLoses(p, s, vs, i);
      ReachesOn(p, Start(), s, t);
    }
  }

  ghost predicate AllTrue(batches: seq<Batch>) {
    forall k, i :: 0 <= k < |batches| && 0 <= i < |batches[k].responses| ==> batches[k].responses[i]
  }

  lemma FlushAllTrue<T(!new)>(p: Params<T>, cause: Cause, s: History<T>)
    requires WellBehaved(p) && Known(s) && |s.buffer| <= p.batchSize && AllTrue(s.batches)
    requires forall call: nat :: Acknowledges(p, call)
    ensures AllTrue(Flush(p, cause, s).batches)
  {
    if s.buffer != [] { assert Acknowledges(p, |s.batches|); }
  }

  lemma {:induction false} RunAllTrue<T(!new)>(p: Params<T>, actions: seq<Action<T>>)
    requires WellBehaved(p) && p.batchSize >= 1 && forall call: nat :: Acknowledges(p, call)
    ensures AllTrue(Run(p, Start(), actions).batches)
  {
    if |actions| > 0 {
      var n := |actions| - 1;
      RunAllTrue(p, actions[..n]);
      RunInv(p, actions[..n]);
      var s := Run(p, Start(), actions[..n]);
      match actions[n]
      case Submitted(_) => FlushAllTrue(p, FullBuffer, s);
      case Ticked => FlushAllTrue(p, Interval, s);
      case Stopped => FlushAllTrue(p, Shutdown, s);
    }
  }

  lemma NothingRetriedSettles<T(!new)>(p: Params<T>, t: History<T>)
    requires WellBehaved(p) && p.batchSize >= 1 && Reaches(p, Start(), t) && t.stopped
    requires p.maxRetries <= 0 || forall call: nat :: Acknowledges(p, call)
    ensures Settled(t)
  {
    var actions :| Run(p, Start(), actions) == t;
    NothingLostIff(p, actions);
    if p.maxRetries > 0 { RunAllTrue(p, actions); }
  }

  lemma StrandedUnsettled<T(!new)>(p: Params<T>, t: History<T>)
    requires WellBehaved(p) && p.batchSize >= 1 && Reaches(p, Start(), t) && Ids(t.buffer) != []
    ensures !Settled(t)
  {
    var actions :| Run(p, Start(), actions) == t;
    RunInv(p, actions);
    SettledIff(t);
  }

  /** Every stopped writer has settled everything it accepted if and only if there are no retries or the
      handler never answers false to a batch of admissible size: a failure that asks for a retry can be
      lost. */
  lemma AlwaysSettlesIff<T(!new)>(p: Params<T>)
    requires WellBehaved(p) && p.batchSize >= 1
    ensures (forall t: History<T> :: Reaches(p, Start(), t) && t.stopped ==> Settled(t))
            <==> p.maxRetries <= 0 || forall call: nat :: Acknowledges(p, call)
  {
    if p.maxRetries <= 0 || forall call: nat :: Acknowledges(p, call) {
      forall t: History<T> | Reaches(p, Start(), t) && t.stopped ensures Settled(t) {
        NothingRetriedSettles(p, t);
      }
    } else {
      var call: nat :| !Acknowledges(p, call);
      var t := FailureLoses(p, call);
      StrandedUnsettled(p, t);
    }
  }
}
