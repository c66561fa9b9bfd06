/**
 The batch writer of pkg/batch/writer.go.

 `History` is the specification: one value per moment of the writer goroutine, with every accepted
 item named by its position in acceptance order. `Next` is one turn of the select loop and `Run` any
 schedule of turns. The implementation over an array that is compacted in place is class `Writer` in
 module WriterLoop, whose methods are proved to move the history by exactly one `Next`.
 */
module BatchWriter {

  /** The handler is an arbitrary function of the call number and the batch, so it may answer the
      same batch differently every time it is called. */
  datatype Params<!T> = Params(batchSize: nat, maxRetries: int, handler: (nat, seq<T>) -> seq<bool>)

  /** What the callback owes the writer: one answer per item. */
  ghost predicate WellBehaved<T(!new)>(p: Params<T>) {
    forall n: nat, batch: seq<T> :: |p.handler(n, batch)| == |batch|
  }

  // ---------- Outcome of one batch ----------

  /** A buffered item: `id` is its position among all accepted items. */
  datatype Entry = Entry(id: nat, attempt: nat)

  datatype Fate = Ack | Retry | Drop

  function FateOf(maxRetries: int, attempt: nat, ok: bool): Fate {
    if ok then Ack else if attempt >= maxRetries then Drop else Retry
  }

  /** The entries of a batch that meet the given fate, in batch order. */
  function Select(f: Fate, maxRetries: int, es: seq<Entry>, rs: seq<bool>): seq<Entry>
    requires |es| == |rs|
  {
    if |es| == 0 then []
    else
      var n := |es| - 1;
      Select(f, maxRetries, es[..n], rs[..n])
      + (if FateOf(maxRetries, es[n].attempt, rs[n]) == f then [es[n]] else [])
  }

  function Aged(es: seq<Entry>): seq<Entry> {
    seq(|es|, i requires 0 <= i < |es| => Entry(es[i].id, es[i].attempt + 1))
  }

  function Survivors(maxRetries: int, es: seq<Entry>, rs: seq<bool>): seq<Entry>
    requires |es| == |rs|
  {
    Aged(Select(Retry, maxRetries, es, rs))
  }

  function Ids(es: seq<Entry>): seq<nat> {
    seq(|es|, i requires 0 <= i < |es| => es[i].id)
  }

  // ---------- The loop as a state machine ----------

  datatype Cause = FullBuffer | Interval | Shutdown

  /** One call of the handler: what it was given and what it answered. */
  datatype Batch = Batch(cause: Cause, entries: seq<Entry>, responses: seq<bool>)

  datatype History<T> = History(
    accepted: seq<T>,       // item `id` is accepted[id]
    batches: seq<Batch>,
    acked: seq<nat>,
    dropped: seq<nat>,      // given up by the retry rule
    abandoned: seq<nat>,    // retry survivors overwritten when a full buffer was reset
    buffer: seq<Entry>,
    stopped: bool)

  datatype Action<T> = Submitted(item: T) | Ticked | Stopped

  predicate Known<T>(s: History<T>) {
    forall k :: 0 <= k < |s.buffer| ==> s.buffer[k].id < |s.accepted|
  }

  function Values<T>(accepted: seq<T>, es: seq<Entry>): seq<T>
    requires forall k :: 0 <= k < |es| ==> es[k].id < |accepted|
  {
    seq(|es|, i requires 0 <= i < |es| => accepted[es[i].id])
  }

  function Start<T>(): History<T> { History([], [], [], [], [], [], false) }

  function Flush<T(!new)>(p: Params<T>, cause: Cause, s: History<T>): (t: History<T>)
    requires WellBehaved(p) && Known(s)
    ensures Known(t)
  {
    if s.buffer == [] then s
    else
      var rs := p.handler(|s.batches|, Values(s.accepted, s.buffer));
      SelectIncluded(Retry, p.maxRetries, s.buffer, rs);
      s.(batches := s.batches + [Batch(cause, s.buffer, rs)],
         acked := s.acked + Ids(Select(Ack, p.maxRetries, s.buffer, rs)),
         dropped := s.dropped + Ids(Select(Drop, p.maxRetries, s.buffer, rs)),
         buffer := Survivors(p.maxRetries, s.buffer, rs))
  }

  /** A full buffer is flushed and then emptied, survivors included. */
  function MakeRoom<T(!new)>(p: Params<T>, s: History<T>): (t: History<T>)
    requires WellBehaved(p) && Known(s)
    ensures Known(t)
  {
    if |s.buffer| < p.batchSize then s
    else
      var f := Flush(p, FullBuffer, s);
      f.(abandoned := f.abandoned + Ids(f.buffer), buffer := [])
  }

  /** One turn of the select loop; once stopped, the goroutine is gone and nothing changes. */
  function Next<T(!new)>(p: Params<T>, s: History<T>, a: Action<T>): (t: History<T>)
    requires WellBehaved(p) && Known(s)
    ensures Known(t)
  {
    if s.stopped then s
    else
      match a
      case Submitted(v) =>
        var r := MakeRoom(p, s);
        r.(accepted := r.accepted + [v], buffer := r.buffer + [Entry(|r.accepted|, 0)])
      case Ticked => Flush(p, Interval, s)
      case Stopped => Flush(p, Shutdown, s).(stopped := true)
  }

  function Run<T(!new)>(p: Params<T>, s: History<T>, actions: seq<Action<T>>): (t: History<T>)
    requires WellBehaved(p) && Known(s)
    ensures Known(t)
    decreases |actions|
  {
    if |actions| == 0 then s
    else
      var n := |actions| - 1;
      Next(p, Run(p, s, actions[..n]), actions[n])
  }

  lemma {:induction false} SelectIncluded(f: Fate, maxRetries: int, es: seq<Entry>, rs: seq<bool>)
    requires |es| == |rs|
    ensures forall x :: x in Select(f, maxRetries, es, rs) ==>
              exists k :: 0 <= k < |es| && es[k] == x && FateOf(maxRetries, x.attempt, rs[k]) == f
    ensures forall k :: 0 <= k < |es| && FateOf(maxRetries, es[k].attempt, rs[k]) == f ==>
              es[k] in Select(f, maxRetries, es, rs)
  {
    if |es| > 0 {
      var n := |es| - 1;
      SelectIncluded(f, maxRetries, es[..n], rs[..n]);
      forall x | x in Select(f, maxRetries, es, rs)
        ensures exists k :: 0 <= k < |es| && es[k] == x && FateOf(maxRetries, x.attempt, rs[k]) == f
      {
        if x in Select(f, maxRetries, es[..n], rs[..n]) {
          var k :| 0 <= k < n && es[..n][k] == x && FateOf(maxRetries, x.attempt, rs[..n][k]) == f;
          assert es[k] == x;
        } else {
          assert es[n] == x;
        }
      }
      forall k | 0 <= k < |es| && FateOf(maxRetries, es[k].attempt, rs[k]) == f
        ensures es[k] in Select(f, maxRetries, es, rs)
      {
        if k < n { assert es[..n][k] == es[k] && rs[..n][k] == rs[k]; }
      }
    }
  }
}
