/**
 `Writer` of pkg/batch/writer.go over its array, and the BigQuery sink that drives it
 (pkg/sinks/bigquery.go). The methods are proved against the history of module BatchWriter.
 */
module WriterLoop {
  import opened BatchWriter
  import opened BatchWriterProofs

  datatype BufferItem<T> = BufferItem(v: T, attempt: nat)

  /** The array contents that a list of entries stands for. */
  function View<T>(accepted: seq<T>, es: seq<Entry>): seq<BufferItem<T>>
    requires forall k :: 0 <= k < |es| ==> es[k].id < |accepted|
  {
    seq(|es|, i requires 0 <= i < |es| => BufferItem(accepted[es[i].id], es[i].attempt))
  }

  lemma SurvivorsGrow(maxRetries: int, es: seq<Entry>, rs: seq<bool>, i: nat)
    requires |es| == |rs| && i < |es|
    ensures Survivors(maxRetries, es[..i + 1], rs[..i + 1])
            == Survivors(maxRetries, es[..i], rs[..i])
               + (if FateOf(maxRetries, es[i].attempt, rs[i]) == Retry
                  then [Entry(es[i].id, es[i].attempt + 1)] else [])
  {
    assert es[..i + 1][..i] == es[..i] && rs[..i + 1][..i] == rs[..i];
  }

  lemma {:induction false} StoppedStays<T(!new)>(p: Params<T>, s: History<T>, actions: seq<Action<T>>)
    requires WellBehaved(p) && Known(s) && s.stopped
    ensures Run(p, s, actions) == s
  {
    if |actions| > 0 { StoppedStays(p, s, actions[..|actions| - 1]); }
  }

  lemma RunSnoc<T(!new)>(p: Params<T>, s: History<T>, actions: seq<Action<T>>, i: nat)
    requires WellBehaved(p) && Known(s) && i < |actions|
    ensures Run(p, s, actions[..i + 1]) == Next(p, Run(p, s, actions[..i]), actions[i])
  {
    assert actions[..i + 1][..i] == actions[..i];
  }

  lemma StopInv<T>(p: Params<T>, s: History<T>)
    requires Inv(p, s)
    ensures Inv(p, s.(stopped := true))
  {
  }

  class Writer<T(!new, 0)> {
    const params: Params<T>
    const buffer: array<BufferItem<T>>
    var len: nat
    var calls: nat           // how often the handler was called: stands for the handler's own state
    ghost var log: History<T>

    ghost predicate Valid()
      reads this, buffer
    {
      && WellBehaved(params)
      && params.batchSize == buffer.Length
      && Inv(params, log)
      && calls == |log.batches|
      && len == |log.buffer| <= buffer.Length
      && buffer[..len] == View(log.accepted, log.buffer)
    }

    constructor (params: Params<T>)
      requires WellBehaved(params)
      ensures Valid() && fresh(buffer) && this.params == params && log == Start()
    {
      this.params := params;
      buffer := new BufferItem<T>[params.batchSize];
      len, calls, log := 0, 0, Start();
      new;
      StartInv(params);
    }

    /** Hands the buffered items to the handler and keeps the failed ones that may be retried. */
    method ProcessBuffer(ghost cause: Cause)
      requires Valid() && (cause == FullBuffer ==> |log.buffer| == params.batchSize)
      modifies this, buffer
      ensures Valid() && log == Flush(params, cause, old(log))
    {
      if len == 0 { return; }
      var slice := Copy();
      var responses := params.handler(calls, slice);
      calls := calls + 1;
      len := Compact(responses, log.accepted, log.buffer);
      FlushInv(params, cause, log);
      log := Flush(params, cause, log);
    }

    /** Compacts in place: the array is read and overwritten in one pass, the write position never
        passing the read position. What is left at the front is the order-preserving selection of the
        failed items that may be retried, each one attempt older. */
    method Compact(responses: seq<bool>, ghost accepted: seq<T>, ghost es: seq<Entry>) returns (newItemsCount: nat)
      requires |responses| == len == |es| <= buffer.Length
      requires forall k :: 0 <= k < |es| ==> es[k].id < |accepted|
      requires buffer[..len] == View(accepted, es)
      modifies buffer
      ensures var kept := Survivors(params.maxRetries, es, responses);
              && newItemsCount == |kept| <= buffer.Length
              && (forall k :: 0 <= k < |kept| ==> kept[k].id < |accepted|)
              && buffer[..newItemsCount] == View(accepted, kept)
    {
      newItemsCount := 0;
      ghost var kept: seq<Entry> := [];
      for idx := 0 to |responses|
        invariant newItemsCount == |kept| <= idx
        invariant kept == Survivors(params.maxRetries, es[..idx], responses[..idx])
        invariant forall k :: 0 <= k < |kept| ==> kept[k].id < |accepted|
        invariant forall k :: 0 <= k < |kept| ==> buffer[k] == BufferItem(accepted[kept[k].id], kept[k].attempt)
        invariant forall k :: idx <= k < len ==> buffer[k] == View(accepted, es)[k]
      {
        SurvivorsGrow(params.maxRetries, es, responses, idx);
        var item := buffer[idx];
        if !responses[idx] {
          if item.attempt >= params.maxRetries {
            continue;
          }
          buffer[newItemsCount] := BufferItem(item.v, item.attempt + 1);
          newItemsCount := newItemsCount + 1;
          kept := kept + [Entry(es[idx].id, es[idx].attempt + 1)];
        }
      }
      assert es[..|es|] == es && responses[..|es|] == responses;
    }

    method Copy() returns (items: seq<T>)
      requires Valid()
      ensures items == Values(log.accepted, log.buffer)
    {
      var slice := new T[len];
      for i := 0 to len
        invariant slice[..i] == Values(log.accepted, log.buffer)[..i]
      {
        assert buffer[i] == buffer[..len][i];
        slice[i] := buffer[i].v;
      }
      items := slice[..];
    }

    /** The select case for an incoming item. An array of length zero makes the assignment panic. */
    method Receive(item: T)
      requires Valid() && !log.stopped && params.batchSize >= 1
      modifies this, buffer
      ensures Valid() && log == Next(params, old(log), Submitted(item))
    {
      NextInv(params, log, Submitted(item));
      EmptyFullBuffer();
      buffer[len] := BufferItem(item, 0);
      len := len + 1;
      ghost var roomy := log;
      log := log.(accepted := log.accepted + [item], buffer := log.buffer + [Entry(|log.accepted|, 0)]);
      assert View(log.accepted, log.buffer) == View(roomy.accepted, roomy.buffer) + [BufferItem(item, 0)];
    }

    /** A full buffer is flushed, and what the flush kept for a retry is overwritten from the start. */
    method EmptyFullBuffer()
      requires Valid() && params.batchSize >= 1
      modifies this, buffer
      ensures Valid() && log == MakeRoom(params, old(log)) && len < buffer.Length
    {
      MakeRoomInv(params, log);
      if len >= params.batchSize {
        ProcessBuffer(FullBuffer);
        len := 0;
        log := log.(abandoned := log.abandoned + Ids(log.buffer), buffer := []);
      }
    }

    /** The select case for the done signal: one last flush, then the goroutine ends. */
    method Finish()
      requires Valid() && !log.stopped
      modifies this, buffer
      ensures Valid() && log == Next(params, old(log), Stopped)
    {
      ProcessBuffer(Shutdown);
      StopInv(params, log);
      log := log.(stopped := true);
    }

    /** One turn of the select statement, with whichever case is ready. */
    method Turn(action: Action<T>) returns (goOn: bool)
      requires Valid() && !log.stopped && (action.Submitted? ==> params.batchSize >= 1)
      modifies this, buffer
      ensures Valid() && log == Next(params, old(log), action)
      ensures goOn == !log.stopped
    {
      goOn := true;
      match action {
        case Submitted(item) => Receive(item);
        case Stopped => Finish(); goOn := false;
        case Ticked => ProcessBuffer(Interval);
      }
    }

    /** The goroutine refines `Run` for every schedule. */
    method Loop(schedule: seq<Action<T>>)
      requires Valid() && !log.stopped
      requires params.batchSize >= 1 || forall a :: a in schedule ==> !a.Submitted?
      modifies this, buffer
      ensures Valid() && log == Run(params, old(log), schedule)
    {
      var shouldGoOn := true;
      var i := 0;
      while shouldGoOn && i < |schedule|
        invariant 0 <= i <= |schedule| && Valid()
        invariant log == Run(params, old(log), schedule[..i])
        invariant shouldGoOn == !log.stopped
        decreases |schedule| - i
      {
        RunSnoc(params, old(log), schedule, i);
        shouldGoOn := Turn(schedule[i]);
        i := i + 1;
      }
      assert schedule == schedule[..i] + schedule[i..];
      RunConcat(params, old(log), schedule[..i], schedule[i..]);
      if log.stopped { StoppedStays(params, log, schedule[i..]); } else { assert schedule[i..] == []; }
    }
  }
}

module BigQuery {
  import opened BatchWriter
  import opened BatchWriterProofs
  import opened BatchWriterDelivery
  import opened WriterLoop

  /** Success for every item. */
  function Responses<E>(items: seq<E>): seq<bool> { seq(|items|, i => true) }

  /** The batch is written to a file that is then loaded, which may fail; the answer does not depend on it. */
  method HandleBatch<E>(items: seq<E>, loads: bool) returns (res: array<bool>, loaded: seq<E>)
    ensures res[..] == Responses(items)
    ensures loaded == if loads then items else []
  {
    res := new bool[|items|];
    for i := 0 to |items|
      invariant forall k :: 0 <= k < i ==> res[k]
    {
      res[i] := true;
    }
    loaded := if loads then items else [];
  }

  // ---------- What reaches BigQuery ----------

  /** The items of the batches whose load ended as given; `loads(k)` says whether that of batch `k` worked. */
  function WithLoad(loads: nat -> bool, outcome: bool, batches: seq<Batch>): seq<nat> {
    if |batches| == 0 then []
    else
      var n := |batches| - 1;
      WithLoad(loads, outcome, batches[..n]) + (if loads(n) == outcome then Ids(batches[n].entries) else [])
  }

  lemma {:induction false} LoadsSplit(loads: nat -> bool, batches: seq<Batch>)
    ensures multiset(WithLoad(loads, true, batches)) + multiset(WithLoad(loads, false, batches))
            == multiset(Handed(batches))
  {
    if |batches| > 0 {
      var n := |batches| - 1;
      LoadsSplit(loads, batches[..n]);
      var ids := Ids(batches[n].entries);
      assert ids + [] == ids;
    }
  }

  /** An item arrives if and only if the load of a batch it was in worked. */
  lemma {:induction false} LoadedIff(loads: nat -> bool, batches: seq<Batch>, id: nat)
    ensures id in WithLoad(loads, true, batches)
            <==> exists k :: 0 <= k < |batches| && loads(k) && id in Ids(batches[k].entries)
  {
    if |batches| > 0 {
      var n := |batches| - 1;
      LoadedIff(loads, batches[..n], id);
      if k :| 0 <= k < |batches| && loads(k) && id in Ids(batches[k].entries) {
        if k < n { assert id in Ids(batches[..n][k].entries); }
      }
      if k :| 0 <= k < n && loads(k) && id in Ids(batches[..n][k].entries) {
        assert id in Ids(batches[k].entries);
      }
    }
  }

  lemma {:induction false} WithLoadKnown(loads: nat -> bool, outcome: bool, batches: seq<Batch>, n: nat)
    requires forall k :: 0 <= k < |Handed(batches)| ==> Handed(batches)[k] < n
    ensures forall k :: 0 <= k < |WithLoad(loads, outcome, batches)| ==> WithLoad(loads, outcome, batches)[k] < n
  {
    LoadsSplit(loads, batches);
    forall id | id in WithLoad(loads, outcome, batches) ensures id in Handed(batches) {
      assert multiset(WithLoad(loads, outcome, batches))[id] > 0;
      assert id in multiset(Handed(batches));
    }
    var part := WithLoad(loads, outcome, batches);
    forall k | 0 <= k < |part| ensures part[k] < n { assert part[k] in part; }
  }

  lemma {:induction false} LoadsAll(loads: nat -> bool, batches: seq<Batch>)
    requires forall k :: 0 <= k < |batches| ==> batches[k].entries != []
    ensures WithLoad(loads, false, batches) == [] <==> forall k :: 0 <= k < |batches| ==> loads(k)
    ensures WithLoad(loads, false, batches) == [] ==> WithLoad(loads, true, batches) == Handed(batches)
  {
    if |batches| > 0 {
      var n := |batches| - 1;
      LoadsAll(loads, batches[..n]);
      assert |Ids(batches[n].entries)| > 0;
    }
  }

  /** A handler that always reports success: whatever the retry limit, each acknowledged item was loaded or
      is lost because the load of its one batch failed, and everything acknowledged was loaded, in order, if
      and only if every load worked. */
  lemma LostLoads<E(!new)>(p: Params<E>, actions: seq<Action<E>>, loads: nat -> bool)
    requires WellBehaved(p) && NeverFails(p) && p.batchSize >= 1
    ensures var s := Run(p, Start(), actions);
            var loaded, lost := WithLoad(loads, true, s.batches), WithLoad(loads, false, s.batches);
            && multiset(s.acked) == multiset(loaded) + multiset(lost)
            && (forall id :: id in lost ==> id !in loaded)
            && (loaded == s.acked <==> forall k :: 0 <= k < |s.batches| ==> loads(k))
  {
    ExactBatching(p, actions);
    RunInv(p, actions);
    LoadsInOrder(p, Run(p, Start(), actions), loads);
  }

  lemma BatchesNonEmpty<E>(p: Params<E>, s: History<E>)
    requires Inv(p, s)
    ensures forall k :: 0 <= k < |s.batches| ==> s.batches[k].entries != []
  {
    forall k | 0 <= k < |s.batches| ensures s.batches[k].entries != [] {
      assert BatchOk(p.batchSize, |s.accepted|, s.batches[k]);
    }
  }

  lemma LoadsInOrder<E(!new)>(p: Params<E>, s: History<E>, loads: nat -> bool)
    requires Inv(p, s) && InOrder(s)
    ensures var loaded, lost := WithLoad(loads, true, s.batches), WithLoad(loads, false, s.batches);
            && multiset(s.acked) == multiset(loaded) + multiset(lost)
            && (forall id :: id in lost ==> id !in loaded)
            && (loaded == s.acked <==> forall k :: 0 <= k < |s.batches| ==> loads(k))
  {
    BatchesNonEmpty(p, s);
    LoadsSplit(loads, s.batches);
    LoadsAll(loads, s.batches);
    var loaded, lost := WithLoad(loads, true, s.batches), WithLoad(loads, false, s.batches);
    assert |multiset(s.acked)| == |multiset(loaded)| + |multiset(lost)|;
    forall id | id in lost ensures id !in loaded {
      HandedOnce(s, id);
      assert multiset(Handed(s.batches))[id] == multiset(loaded)[id] + multiset(lost)[id];
    }
  }

  lemma {:induction false} ValuesSplit<E>(accepted: seq<E>, loads: nat -> bool, batches: seq<Batch>)
    requires forall k :: 0 <= k < |Handed(batches)| ==> Handed(batches)[k] < |accepted|
    ensures forall outcome, k :: 0 <= k < |WithLoad(loads, outcome, batches)| ==>
              WithLoad(loads, outcome, batches)[k] < |accepted|
    ensures multiset(ItemsAt(accepted, WithLoad(loads, true, batches)))
            + multiset(ItemsAt(accepted, WithLoad(loads, false, batches)))
            == multiset(ItemsAt(accepted, Handed(batches)))
  {
    WithLoadKnown(loads, true, batches, |accepted|);
    WithLoadKnown(loads, false, batches, |accepted|);
    if |batches| > 0 {
      var n := |batches| - 1;
      var before, ids := Handed(batches[..n]), Ids(batches[n].entries);
      assert Handed(batches) == before + ids;
      KnownParts(before, ids, |accepted|);
      ValuesSplit(accepted, loads, batches[..n]);
      ItemsConcat(accepted, before, ids);
      var worked, failed := WithLoad(loads, true, batches[..n]), WithLoad(loads, false, batches[..n]);
      assert worked + [] == worked && failed + [] == failed;
      if loads(n) { ItemsConcat(accepted, worked, ids); } else { ItemsConcat(accepted, failed, ids); }
    }
  }

  lemma KnownParts(a: seq<nat>, b: seq<nat>, n: nat)
    requires forall k :: 0 <= k < |a + b| ==> (a + b)[k] < n
    ensures forall k :: 0 <= k < |a| ==> a[k] < n
    ensures forall k :: 0 <= k < |b| ==> b[k] < n
  {
    forall k | 0 <= k < |a| ensures a[k] < n { assert a[k] == (a + b)[k]; }
    forall k | 0 <= k < |b| ensures b[k] < n { assert b[k] == (a + b)[|a| + k]; }
  }

  lemma ItemsConcat<E>(accepted: seq<E>, a: seq<nat>, b: seq<nat>)
    requires forall k :: 0 <= k < |a| ==> a[k] < |accepted|
    requires forall k :: 0 <= k < |b| ==> b[k] < |accepted|
    ensures ItemsAt(accepted, a + b) == ItemsAt(accepted, a) + ItemsAt(accepted, b)
  {
  }

  /** The same for the values: what was loaded is part of what was handed over, and all of it if and only
      if every load worked. */
  lemma LoadedValues<E(!new)>(p: Params<E>, s: History<E>, loads: nat -> bool)
    requires Inv(p, s) && forall k :: 0 <= k < |Handed(s.batches)| ==> Handed(s.batches)[k] < |s.accepted|
    ensures var loaded := WithLoad(loads, true, s.batches);
            && (forall k :: 0 <= k < |loaded| ==> loaded[k] < |s.accepted|)
            && var got, all := multiset(ItemsAt(s.accepted, loaded)),
                               multiset(ItemsAt(s.accepted, Handed(s.batches)));
               got <= all && (got == all <==> forall k :: 0 <= k < |s.batches| ==> loads(k))
  {
    BatchesNonEmpty(p, s);
    ValuesSplit(s.accepted, loads, s.batches);
    LoadsAll(loads, s.batches);
    var lost := ItemsAt(s.accepted, WithLoad(loads, false, s.batches));
    assert |multiset(lost)| == |WithLoad(loads, false, s.batches)|;
  }

  lemma HandedOnce<E>(s: History<E>, id: nat)
    requires InOrder(s)
    ensures multiset(Handed(s.batches))[id] <= 1
  {
    UptoOnce(|s.accepted|);
    assert multiset(Handed(s.batches) + Ids(s.buffer))[id]
           == multiset(Handed(s.batches))[id] + multiset(Ids(s.buffer))[id];
  }

  class Sink<E(!new, 0)> {
    const batchWriter: Writer<E>

    /** `sent` are the events given to Send so far, in order. */
    ghost predicate Valid(sent: seq<E>)
      reads this, batchWriter, batchWriter.buffer
    {
      && batchWriter.Valid() && batchWriter.params.batchSize >= 1 && NeverFails(batchWriter.params)
      && InOrder(batchWriter.log) && batchWriter.log.accepted == sent
    }

    constructor (batchSize: nat, maxRetries: int)
      ensures Valid([]) && !batchWriter.log.stopped && fresh(batchWriter) && fresh(batchWriter.buffer)
      ensures batchWriter.params.batchSize == if batchSize == 0 then 1000 else batchSize
      ensures batchWriter.params.maxRetries == if maxRetries == 0 then 3 else maxRetries
    {
      var size := if batchSize == 0 then 1000 else batchSize;
      var retries := if maxRetries == 0 then 3 else maxRetries;
      batchWriter := new Writer(Params(size, retries, (n: nat, b: seq<E>) => Responses(b)));
      new;
      ExactBatching(batchWriter.params, []);
    }

    /** Send hands one event to the writer and never reports an error. */
    method Send(ev: E, ghost sent: seq<E>) returns (failed: bool)
      requires Valid(sent) && !batchWriter.log.stopped
      modifies batchWriter, batchWriter.buffer
      ensures Valid(sent + [ev]) && !batchWriter.log.stopped && !failed
    {
      NextInOrder(batchWriter.params, batchWriter.log, Submitted(ev));
      batchWriter.Receive(ev);
      failed := false;
    }

    method Tick(ghost sent: seq<E>)
      requires Valid(sent) && !batchWriter.log.stopped
      modifies batchWriter, batchWriter.buffer
      ensures Valid(sent) && !batchWriter.log.stopped
    {
      NextInOrder(batchWriter.params, batchWriter.log, Ticked);
      batchWriter.ProcessBuffer(Interval);
    }

    /** After Close the batches, put end to end, are exactly the events that were sent. */
    method Close(ghost sent: seq<E>)
      requires Valid(sent) && !batchWriter.log.stopped
      modifies batchWriter, batchWriter.buffer
      ensures Valid(sent) && batchWriter.log.stopped
      ensures forall k :: 0 <= k < |Handed(batchWriter.log.batches)| ==>
                Handed(batchWriter.log.batches)[k] < |sent|
      ensures ItemsAt(sent, Handed(batchWriter.log.batches)) == sent
    {
      NextInOrder(batchWriter.params, batchWriter.log, Stopped);
      batchWriter.Finish();
      assert Handed(batchWriter.log.batches) + Ids([]) == Handed(batchWriter.log.batches);
    }
  }
}
