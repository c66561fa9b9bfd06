/**
 What holds in every reachable state of the channel registry, for every interleaving of senders,
 workers and Close, and for every list of receiver names, duplicates included.
 */
module RegistrySafety {
  import opened Wrappers
  import opened ChannelRegistry

  // ---------- What was sent to whom ----------

  /** The events of all SendEvent calls that found the channel of worker `w`, in call order. */
  function SentTo<E>(ch: map<string, nat>, sends: seq<(string, E)>, w: nat): seq<E> {
    if |sends| == 0 then []
    else
      var n := |sends| - 1;
      SentTo(ch, sends[..n], w)
      + (if sends[n].0 in ch && ch[sends[n].0] == w then [sends[n].1] else [])
  }

  function SentNowhere<E>(ch: map<string, nat>, sends: seq<(string, E)>): seq<E> {
    if |sends| == 0 then []
    else
      var n := |sends| - 1;
      SentNowhere(ch, sends[..n]) + (if sends[n].0 in ch then [] else [sends[n].1])
  }

  // ---------- What a sink saw ----------

  function Begun<E>(calls: seq<Call<E>>): seq<E> {
    if |calls| == 0 then []
    else
      var n := |calls| - 1;
      Begun(calls[..n]) + (if calls[n].Begin? then [calls[n].ev] else [])
  }

  /** The events whose Send has returned. */
  function Delivered<E>(calls: seq<Call<E>>): seq<E> {
    if |calls| == 0 then []
    else
      var n := |calls| - 1;
      Delivered(calls[..n]) + (if calls[n].End? then [calls[n].ev] else [])
  }

  function Failed<E>(calls: seq<Call<E>>): nat {
    if |calls| == 0 then 0
    else
      var n := |calls| - 1;
      Failed(calls[..n]) + (if calls[n].End? && !calls[n].ok then 1 else 0)
  }

  function FailedSends<E>(workers: seq<Worker<E>>): nat {
    if |workers| == 0 then 0
    else FailedSends(workers[..|workers| - 1]) + Failed(workers[|workers| - 1].calls)
  }

  /** Sends of one sink never overlap, and nothing follows its Close. */
  ghost predicate Serial<E(!new)>(calls: seq<Call<E>>) {
    && (forall i :: 0 <= i < |calls| && calls[i].End? ==> i > 0 && calls[i - 1] == Begin(calls[i].ev))
    && (forall i :: 0 <= i < |calls| - 1 && calls[i].Begin? ==> calls[i + 1].End?)
    && (forall i :: 0 <= i < |calls| && calls[i].CloseCall? ==> i == |calls| - 1)
  }

  ghost predicate WorkerOk<E(!new)>(w: Worker<E>) {
    && Serial(w.calls)
    && match w.phase
       case Idle => Begun(w.calls) == Delivered(w.calls) && (w.calls == [] || w.calls[|w.calls| - 1].End?)
       case Exiting => Begun(w.calls) == Delivered(w.calls) && (w.calls == [] || w.calls[|w.calls| - 1].End?)
       case Sending(ev) =>
         && Begun(w.calls) == Delivered(w.calls) + [ev]
         && w.calls != [] && w.calls[|w.calls| - 1] == Begin(ev)
       case Exited => Begun(w.calls) == Delivered(w.calls) && w.calls != [] && w.calls[|w.calls| - 1] == CloseCall
  }

  // ---------- The state of Close ----------

  /** The worker that SendEvent and Close reach under this name: the last one registered. */
  ghost predicate Latest(names: seq<string>, w: nat) {
    w < |names| && forall j :: w < j < |names| ==> names[j] != names[w]
  }

  lemma {:induction false} LastIndex(names: seq<string>, name: string) returns (w: nat)
    requires name in names
    ensures Latest(names, w) && names[w] == name
  {
    var n := |names| - 1;
    if names[n] == name {
      w := n;
    } else {
      w := LastIndex(names[..n], name);
    }
  }

  ghost predicate TableOk(names: seq<string>, t: map<string, nat>) {
    && (forall n :: n in t ==> Latest(names, t[n]) && names[t[n]] == n)
    && (forall w: nat :: Latest(names, w) ==> names[w] in t && t[names[w]] == w)
  }

  /** Close has delivered its exit signal to worker `w`. */
  ghost predicate Signalled<E>(names: seq<string>, s: State<E>, w: nat) {
    && Latest(names, w)
    && match s.closer
       case Open => false
       case Signalling(current, rest) => names[w] !in rest && current != Some(w)
       case Waiting => true
       case Returned => true
       case Panicked => false
  }

  ghost predicate CloserOk<E(!new)>(names: seq<string>, s: State<E>) {
    match s.closer
    case Open => true
    case Signalling(current, rest) =>
      && names != [] && rest <= s.exitCh.Keys
      && (current.Some? ==> Latest(names, current.value) && names[current.value] !in rest)
    case Waiting => names != []
    case Returned => names != [] && forall w :: 0 <= w < |s.workers| ==> s.workers[w].phase.Exited?
    case Panicked => names == []
  }

  // ---------- The invariant ----------

  /** Each copy of an event sent to worker `w` is begun by its sink or still with its sender. */
  ghost predicate ConservedAt<E(!new)>(s: State<E>, w: nat, e: E) requires w < |s.workers| {
    multiset(Begun(s.workers[w].calls))[e] + s.inFlight[(w, e)] == multiset(SentTo(s.ch, s.sends, w))[e]
  }

  ghost predicate Conserved<E(!new)>(s: State<E>) {
    && (forall w, e :: 0 <= w < |s.workers| ==> ConservedAt(s, w, e))
    && (forall m :: m in s.inFlight ==> m.0 < |s.workers|)
    && s.stuck == multiset(SentNowhere(s.ch, s.sends))
  }

  ghost predicate Shape<E(!new)>(names: seq<string>, s: State<E>) {
    && |s.workers| == |names|
    && (forall w :: 0 <= w < |names| ==> s.workers[w].name == names[w])
    && TableOk(names, s.ch) && s.exitCh == s.ch
  }

  ghost predicate WorkersOk<E(!new)>(s: State<E>) {
    forall w :: 0 <= w < |s.workers| ==> WorkerOk(s.workers[w])
  }

  predicate Leaving<E>(p: Phase<E>) { p.Exiting? || p.Exited? }

  /** A worker is leaving exactly if Close has signalled it. */
  ghost predicate Closing<E(!new)>(names: seq<string>, s: State<E>) {
    && CloserOk(names, s)
    && (forall w :: 0 <= w < |s.workers| ==> (Leaving(s.workers[w].phase) <==> Signalled(names, s, w)))
  }

  ghost predicate Ok<E(!new)>(names: seq<string>, s: State<E>) {
    && Shape(names, s)
    && WorkersOk(s)
    && Conserved(s)
    && s.sendErrors == FailedSends(s.workers)
    && Closing(names, s)
  }

  lemma TableExtends(names: seq<string>, t: map<string, nat>, name: string)
    requires TableOk(names, t)
    ensures TableOk(names + [name], t[name := |names|])
  {
    var names', t' := names + [name], t[name := |names|];
    forall n | n in t' ensures Latest(names', t'[n]) && names'[t'[n]] == n {
      if n != name { assert Latest(names, t[n]) && names[t[n]] == n; }
    }
    forall w: nat | Latest(names', w) ensures names'[w] in t' && t'[names'[w]] == w {
      if w < |names| {
        assert names'[|names|] == name;
        forall j | w < j < |names| ensures names[j] != names[w] { assert names'[j] != names'[w]; }
        assert Latest(names, w);
      }
    }
  }

  lemma {:induction false} BootTable<E>(names: seq<string>)
    ensures TableOk(names, Boot<E>(names).ch) && Boot<E>(names).exitCh == Boot<E>(names).ch
  {
    if |names| > 0 {
      var n := |names| - 1;
      BootTable<E>(names[..n]);
      BootWorkers<E>(names[..n]);
      TableExtends(names[..n], Boot<E>(names[..n]).ch, names[n]);
      assert names == names[..n] + [names[n]];
    }
  }

  lemma {:induction false} BootWorkers<E>(names: seq<string>)
    ensures var s := Boot<E>(names);
            && |s.workers| == |names| && (forall w :: 0 <= w < |names| ==> s.workers[w] == Worker(names[w], Idle, []))
            && s == State(s.workers, s.ch, s.exitCh, multiset{}, multiset{}, 0, [], Open)
  {
    if |names| > 0 { BootWorkers<E>(names[..|names| - 1]); }
  }

  lemma BootShape<E(!new)>(names: seq<string>)
    ensures var s := Boot<E>(names);
            && Shape(names, s)
            && (forall w :: 0 <= w < |names| ==> s.workers[w] == Worker(names[w], Idle, []))
            && s == State(s.workers, s.ch, s.exitCh, multiset{}, multiset{}, 0, [], Open)
  {
    BootTable<E>(names);
    BootWorkers<E>(names);
  }

  lemma {:induction false} NoFailures<E>(workers: seq<Worker<E>>)
    requires forall w :: 0 <= w < |workers| ==> workers[w].calls == []
    ensures FailedSends(workers) == 0
  {
    if |workers| > 0 { NoFailures(workers[..|workers| - 1]); }
  }

  /** The invariant holds of any state in which nothing has happened yet. */
  lemma UntouchedOk<E(!new)>(names: seq<string>, s: State<E>)
    requires Shape(names, s)
    requires forall w :: 0 <= w < |names| ==> s.workers[w] == Worker(names[w], Idle, [])
    requires s == State(s.workers, s.ch, s.exitCh, multiset{}, multiset{}, 0, [], Open)
    ensures Ok(names, s)
  {
    NoFailures(s.workers);
    forall w | 0 <= w < |s.workers| ensures WorkerOk(s.workers[w]) {}
    forall w, e | 0 <= w < |s.workers| ensures ConservedAt(s, w, e) {}
  }

  lemma BootOk<E(!new)>(names: seq<string>)
    ensures Ok(names, Boot<E>(names))
  {
    BootShape<E>(names);
    UntouchedOk(names, Boot<E>(names));
  }

  // ---------- Every step keeps the invariant ----------

  lemma {:induction false} FailedUpdate<E>(workers: seq<Worker<E>>, w: nat, v: Worker<E>)
    requires w < |workers|
    ensures FailedSends(workers[w := v]) == FailedSends(workers) - Failed(workers[w].calls) + Failed(v.calls)
  {
    var n := |workers| - 1;
    if w < n {
      assert workers[w := v][..n] == workers[..n][w := v];
      FailedUpdate(workers[..n], w, v);
    } else {
      assert workers[w := v][..n] == workers[..n];
    }
  }

  lemma CallsStep<E>(calls: seq<Call<E>>, c: Call<E>)
    ensures Begun(calls + [c]) == Begun(calls) + (if c.Begin? then [c.ev] else [])
    ensures Delivered(calls + [c]) == Delivered(calls) + (if c.End? then [c.ev] else [])
    ensures Failed(calls + [c]) == Failed(calls) + (if c.End? && !c.ok then 1 else 0)
  {
    assert (calls + [c])[..|calls|] == calls;
  }

  lemma SerialStep<E(!new)>(calls: seq<Call<E>>, c: Call<E>)
    requires Serial(calls)
    requires calls == [] || !calls[|calls| - 1].CloseCall?
    requires c.End? <==> calls != [] && calls[|calls| - 1].Begin?
    requires c.End? ==> calls[|calls| - 1].ev == c.ev
    ensures Serial(calls + [c])
  {
  }

  lemma SentStep<E(!new)>(ch: map<string, nat>, sends: seq<(string, E)>, name: string, ev: E, w: nat)
    ensures SentTo(ch, sends + [(name, ev)], w)
            == SentTo(ch, sends, w) + (if name in ch && ch[name] == w then [ev] else [])
    ensures SentNowhere(ch, sends + [(name, ev)])
            == SentNowhere(ch, sends) + (if name in ch then [] else [ev])
  {
    assert (sends + [(name, ev)])[..|sends|] == sends;
  }

  lemma StepShape<E(!new)>(names: seq<string>, s: State<E>, a: Action<E>)
    requires Shape(names, s) && Enabled(s, a)
    ensures Shape(names, Apply(s, a)) && Apply(s, a).ch == s.ch
  {
  }

  lemma StepWorkers<E(!new)>(s: State<E>, a: Action<E>)
    requires WorkersOk(s) && Enabled(s, a)
    ensures WorkersOk(Apply(s, a))
  {
    var t := Apply(s, a);
    forall w | 0 <= w < |t.workers| ensures WorkerOk(t.workers[w]) {
      assert WorkerOk(s.workers[w]);
      if t.workers[w] != s.workers[w] { StepWorker(s, a, w); }
    }
  }

  lemma StepWorker<E(!new)>(s: State<E>, a: Action<E>, w: nat)
    requires WorkersOk(s) && Enabled(s, a) && w < |s.workers| && Apply(s, a).workers[w] != s.workers[w]
    ensures WorkerOk(Apply(s, a).workers[w])
  {
    assert WorkerOk(s.workers[w]);
    match a
    case Receive(_, ev) => WorkerCall(s.workers[w], Begin(ev));
    case Finish(_, ok) => WorkerCall(s.workers[w], End(s.workers[w].phase.ev, ok));
    case CloseSink(_) => WorkerCall(s.workers[w], CloseCall);
    case Exit(_) => ExitCall(s.workers[w]);
    case _ =>
  }

  function PhaseAfter<E>(c: Call<E>): Phase<E> {
    match c case Begin(ev) => Sending(ev) case End(_, _) => Idle case CloseCall => Exited
  }

  lemma WorkerCall<E(!new)>(w: Worker<E>, c: Call<E>)
    requires WorkerOk(w)
    requires match c
             case Begin(_) => w.phase.Idle?
             case End(ev, _) => w.phase == Sending(ev)
             case CloseCall => w.phase.Exiting?
    ensures WorkerOk(w.(phase := PhaseAfter(c), calls := w.calls + [c]))
  {
    CallsStep(w.calls, c);
    SerialStep(w.calls, c);
  }

  lemma ExitCall<E(!new)>(w: Worker<E>)
    requires WorkerOk(w) && w.phase.Idle?
    ensures WorkerOk(w.(phase := Exiting, calls := w.calls + []))
  {
    assert w.calls + [] == w.calls;
  }

  /** The error counter follows the calls of the one worker that moved. */
  lemma WorkerErrors<E>(s: State<E>, t: State<E>, w: nat, c: Call<E>)
    requires w < |s.workers| && s.sendErrors == FailedSends(s.workers)
    requires |t.workers| == |s.workers| && t.workers == s.workers[w := t.workers[w]]
    requires t.workers[w].calls == s.workers[w].calls + [c]
    requires t.sendErrors == s.sendErrors + (if c.End? && !c.ok then 1 else 0)
    ensures t.sendErrors == FailedSends(t.workers)
  {
    CallsStep(s.workers[w].calls, c);
    FailedUpdate(s.workers, w, t.workers[w]);
  }

  lemma ExitErrors<E>(s: State<E>, w: nat)
    requires Enabled(s, Action<E>.Exit(w)) && s.sendErrors == FailedSends(s.workers)
    ensures Apply(s, Action<E>.Exit(w)).sendErrors == FailedSends(Apply(s, Action<E>.Exit(w)).workers)
  {
    assert s.workers[w].calls + [] == s.workers[w].calls;
    FailedUpdate(s.workers, w, Apply(s, Action<E>.Exit(w)).workers[w]);
  }

  lemma StepErrors<E(!new)>(s: State<E>, a: Action<E>)
    requires s.sendErrors == FailedSends(s.workers) && Enabled(s, a)
    ensures Apply(s, a).sendErrors == FailedSends(Apply(s, a).workers)
  {
    match a
    case Receive(w, ev) => WorkerErrors(s, Apply(s, a), w, Begin(ev));
    case Finish(w, ok) => WorkerErrors(s, Apply(s, a), w, End(s.workers[w].phase.ev, ok));
    case CloseSink(w) => WorkerErrors(s, Apply(s, a), w, CloseCall);
    case Exit(w) => ExitErrors(s, w);
    case _ =>
  }

  lemma SendConserves<E(!new)>(s: State<E>, name: string, ev: E, w: nat, e: E)
    requires w < |s.workers| && ConservedAt(s, w, e)
    ensures ConservedAt(Apply(s, Send(name, ev)), w, e)
  {
    SentStep(s.ch, s.sends, name, ev, w);
  }

  lemma ReceiveConserves<E(!new)>(s: State<E>, v: nat, ev: E, w: nat, e: E)
    requires w < |s.workers| && Enabled(s, Receive(v, ev)) && ConservedAt(s, w, e)
    ensures ConservedAt(Apply(s, Receive(v, ev)), w, e)
  {
    var t := Apply(s, Receive(v, ev));
    assert t.inFlight[(w, e)] == s.inFlight[(w, e)] - (if (w, e) == (v, ev) then 1 else 0);
    if v == w {
      var begun := Begun(s.workers[v].calls);
      CallsStep(s.workers[v].calls, Begin(ev));
      assert multiset(begun + [ev])[e] == multiset(begun)[e] + (if e == ev then 1 else 0);
    } else {
      assert t.workers[w] == s.workers[w];
    }
  }

  lemma FinishConserves<E(!new)>(s: State<E>, v: nat, ok: bool, w: nat, e: E)
    requires w < |s.workers| && Enabled(s, Finish(v, ok)) && ConservedAt(s, w, e)
    ensures ConservedAt(Apply(s, Finish(v, ok)), w, e)
  {
    CallsStep(s.workers[v].calls, End(s.workers[v].phase.ev, ok));
  }

  lemma CloseSinkConserves<E(!new)>(s: State<E>, v: nat, w: nat, e: E)
    requires w < |s.workers| && Enabled(s, CloseSink(v)) && ConservedAt(s, w, e)
    ensures ConservedAt(Apply(s, CloseSink(v)), w, e)
  {
    CallsStep(s.workers[v].calls, CloseCall);
  }

  lemma ExitConserves<E(!new)>(s: State<E>, v: nat, w: nat, e: E)
    requires w < |s.workers| && Enabled(s, Exit(v)) && ConservedAt(s, w, e)
    ensures ConservedAt(Apply(s, Exit(v)), w, e)
  {
    assert s.workers[v].calls + [] == s.workers[v].calls;
  }

  lemma StepConserved<E(!new)>(names: seq<string>, s: State<E>, a: Action<E>)
    requires Shape(names, s) && Conserved(s) && Enabled(s, a)
    ensures Conserved(Apply(s, a))
  {
    var t := Apply(s, a);
    StepShape(names, s, a);
    forall w, e | 0 <= w < |t.workers| ensures ConservedAt(t, w, e) {
      assert ConservedAt(s, w, e);
      match a
      case Send(name, ev) => SendConserves(s, name, ev, w, e);
      case Receive(v, ev) => ReceiveConserves(s, v, ev, w, e);
      case Finish(v, ok) => FinishConserves(s, v, ok, w, e);
      case CloseSink(v) => CloseSinkConserves(s, v, w, e);
      case Exit(v) => ExitConserves(s, v, w, e);
      case _ =>
    }
    if a.Send? { SentStep(s.ch, s.sends, a.name, a.ev, 0); }
    StepTargets(names, s, a);
  }

  lemma StepTargets<E(!new)>(names: seq<string>, s: State<E>, a: Action<E>)
    requires Shape(names, s) && Enabled(s, a)
    requires forall m :: m in s.inFlight ==> m.0 < |s.workers|
    ensures forall m :: m in Apply(s, a).inFlight ==> m.0 < |s.workers|
  {
    var t := Apply(s, a);
    forall m | m in t.inFlight ensures m.0 < |s.workers| {
      if a.Send? && m !in s.inFlight { assert a.name in s.ch && m == (s.ch[a.name], a.ev); }
    }
  }

  lemma StepCloser<E(!new)>(names: seq<string>, s: State<E>, a: Action<E>)
    requires Shape(names, s) && Closing(names, s) && Enabled(s, a)
    ensures CloserOk(names, Apply(s, a))
  {
    match a
    case StartClose =>
    case PickExit(name) => assert Latest(names, s.ch[name]) && names[s.ch[name]] == name;
    case Return =>
    case AllSignalled =>
    case Exit(_) =>
    case _ => assert Apply(s, a).closer == s.closer && Apply(s, a).exitCh == s.exitCh;
  }

  lemma PickSignalled<E(!new)>(names: seq<string>, s: State<E>, name: string, w: nat)
    requires Shape(names, s) && Enabled(s, PickExit(name)) && w < |names|
    ensures Signalled(names, Apply(s, PickExit(name)), w) <==> Signalled(names, s, w)
  {
    if Latest(names, w) { assert names[w] in s.ch && s.ch[names[w]] == w; }
  }

  lemma CloseSignalled<E(!new)>(names: seq<string>, s: State<E>, a: Action<E>, w: nat)
    requires Shape(names, s) && Enabled(s, a) && w < |names|
    requires a.StartClose? || a.AllSignalled? || a.Return?
    ensures Signalled(names, Apply(s, a), w) <==> Signalled(names, s, w)
  {
    if Latest(names, w) { assert names[w] in s.ch && s.ch[names[w]] == w; }
  }

  lemma ExitSignalled<E(!new)>(names: seq<string>, s: State<E>, v: nat, w: nat)
    requires Shape(names, s) && CloserOk(names, s) && Enabled(s, Action<E>.Exit(v)) && w < |names|
    ensures Signalled(names, Apply(s, Action<E>.Exit(v)), w) <==> w == v || Signalled(names, s, w)
  {
    assert Latest(names, v);
  }

  lemma WorkSignalled<E(!new)>(names: seq<string>, s: State<E>, a: Action<E>, w: nat)
    requires Enabled(s, a) && (a.Send? || a.Receive? || a.Finish? || a.CloseSink?)
    ensures Signalled(names, Apply(s, a), w) <==> Signalled(names, s, w)
  {
  }

  lemma StepLeaving<E(!new)>(s: State<E>, a: Action<E>, w: nat)
    requires Enabled(s, a) && w < |s.workers|
    ensures |Apply(s, a).workers| == |s.workers|
    ensures Leaving(Apply(s, a).workers[w].phase) <==> a == Exit(w) || Leaving(s.workers[w].phase)
  {
  }

  lemma StepSignalled<E(!new)>(names: seq<string>, s: State<E>, a: Action<E>, w: nat)
    requires Shape(names, s) && CloserOk(names, s) && Enabled(s, a) && w < |s.workers|
    ensures Signalled(names, Apply(s, a), w) <==> a == Exit(w) || Signalled(names, s, w)
  {
    match a
    case PickExit(name) => PickSignalled(names, s, name, w);
    case Exit(v) => ExitSignalled(names, s, v, w);
    case StartClose => CloseSignalled(names, s, a, w);
    case AllSignalled => CloseSignalled(names, s, a, w);
    case Return => CloseSignalled(names, s, a, w);
    case _ => WorkSignalled(names, s, a, w);
  }

  lemma StepClosing<E(!new)>(names: seq<string>, s: State<E>, a: Action<E>)
    requires Shape(names, s) && Closing(names, s) && Enabled(s, a)
    ensures Closing(names, Apply(s, a))
  {
    StepCloser(names, s, a);
    forall w | 0 <= w < |s.workers|
      ensures Leaving(Apply(s, a).workers[w].phase) <==> Signalled(names, Apply(s, a), w)
    {
      assert Leaving(s.workers[w].phase) <==> Signalled(names, s, w);
      StepLeaving(s, a, w);
      StepSignalled(names, s, a, w);
    }
  }

  lemma StepOk<E(!new)>(names: seq<string>, s: State<E>, a: Action<E>)
    requires Ok(names, s) && Enabled(s, a)
    ensures Ok(names, Apply(s, a))
  {
    StepShape(names, s, a);
    StepWorkers(s, a);
    StepConserved(names, s, a);
    StepErrors(s, a);
    StepClosing(names, s, a);
  }

  /** The invariant holds after every interleaving. In particular each sink's calls are serial and end
      with its Close, SendErrors counts the failed sends, and nothing sent is lost or doubled. */
  lemma {:induction false} PlayOk<E(!new)>(names: seq<string>, s: State<E>, actions: seq<Action<E>>)
    requires Ok(names, s) && Play(s, actions).Some?
    ensures Ok(names, Play(s, actions).value)
  {
    if |actions| > 0 {
      var n := |actions| - 1;
      PlayOk(names, s, actions[..n]);
      StepOk(names, Play(s, actions[..n]).value, actions[n]);
    }
  }

  lemma Reachable<E(!new)>(names: seq<string>, actions: seq<Action<E>>)
    requires Play(Boot(names), actions).Some?
    ensures Ok(names, Play(Boot(names), actions).value)
  {
    BootOk<E>(names);
    PlayOk(names, Boot(names), actions);
  }

  /** In every reachable state: a sink's Sends never overlap and nothing follows its Close, which comes at
      most once, namely exactly when its worker has exited; and the error counter is the number of sends
      that failed. */
  lemma SinksUsedCorrectly<E(!new)>(names: seq<string>, actions: seq<Action<E>>, w: nat)
    requires Play(Boot(names), actions).Some? && w < |names|
    ensures var s := Play(Boot(names), actions).value;
            && |s.workers| == |names| && Serial(s.workers[w].calls)
            && (CloseCall in s.workers[w].calls <==> s.workers[w].phase.Exited?)
            && s.sendErrors == FailedSends(s.workers)
  {
    Reachable(names, actions);
    ExitedIffClosed(Play(Boot(names), actions).value.workers[w]);
  }

  lemma ExitedIffClosed<E(!new)>(w: Worker<E>)
    requires WorkerOk(w)
    ensures CloseCall in w.calls <==> w.phase.Exited?
  {
    if CloseCall in w.calls {
      var i :| 0 <= i < |w.calls| && w.calls[i] == CloseCall;
      assert i == |w.calls| - 1;
    }
  }
}
