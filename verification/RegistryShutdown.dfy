/**
 Shutdown of the channel registry: Close terminates under every interleaving exactly when there is at
 least one receiver and no two share a name.
 */
module RegistryShutdown {
  import opened Wrappers
  import opened ChannelRegistry
  import opened RegistrySafety

  ghost predicate Distinct(names: seq<string>) {
    forall i, j :: 0 <= i < j < |names| ==> names[i] != names[j]
  }

  // ---------- A measure every step decreases ----------

  function Weight<E>(p: Phase<E>): nat {
    match p case Sending(_) => 3 case Idle => 2 case Exiting => 1 case Exited => 0
  }

  function Work<E>(workers: seq<Worker<E>>): nat {
    if |workers| == 0 then 0 else Work(workers[..|workers| - 1]) + Weight(workers[|workers| - 1].phase)
  }

  function CloserWork(c: Closer, exits: nat): nat {
    match c
    case Open => 2 * exits + 3
    case Signalling(current, rest) => 2 * |rest| + (if current.Some? then 1 else 0) + 2
    case Waiting => 1
    case Returned => 0
    case Panicked => 0
  }

  /** Pending sends, live workers and unsent exit signals. */
  function Measure<E>(s: State<E>): nat {
    2 * |s.inFlight| + Work(s.workers) + CloserWork(s.closer, |s.exitCh.Keys|)
  }

  lemma {:induction false} WorkUpdate<E>(workers: seq<Worker<E>>, w: nat, v: Worker<E>)
    requires w < |workers|
    ensures Work(workers[w := v]) == Work(workers) - Weight(workers[w].phase) + Weight(v.phase)
  {
    var n := |workers| - 1;
    if w < n {
      assert workers[w := v][..n] == workers[..n][w := v];
      WorkUpdate(workers[..n], w, v);
    } else {
      assert workers[w := v][..n] == workers[..n];
    }
  }

  lemma ReceiveDecreases<E>(s: State<E>, w: nat, ev: E)
    requires Enabled(s, Receive(w, ev))
    ensures Measure(Apply(s, Receive(w, ev))) < Measure(s)
  {
    var t := Apply(s, Receive(w, ev));
    WorkUpdate(s.workers, w, t.workers[w]);
    assert |t.inFlight| == |s.inFlight| - 1;
  }

  lemma WorkerDecreases<E>(s: State<E>, a: Action<E>, w: nat)
    requires Enabled(s, a) && (a.Finish? || a.CloseSink? || a.Exit?) && a.w == w
    ensures Measure(Apply(s, a)) < Measure(s)
  {
    var t := Apply(s, a);
    assert t.workers == s.workers[w := t.workers[w]] && t.inFlight == s.inFlight && t.exitCh == s.exitCh;
    WorkUpdate(s.workers, w, t.workers[w]);
  }

  lemma PickDecreases<E>(s: State<E>, name: string)
    requires Enabled(s, Action<E>.PickExit(name))
    ensures Measure(Apply(s, Action<E>.PickExit(name))) < Measure(s)
  {
    assert |s.closer.rest - {name}| == |s.closer.rest| - 1;
  }

  lemma CloserDecreases<E>(s: State<E>, a: Action<E>)
    requires Enabled(s, a) && (a.StartClose? || a.AllSignalled? || a.Return?)
    ensures Measure(Apply(s, a)) < Measure(s)
  {
    var t := Apply(s, a);
    assert CloserWork(t.closer, |s.exitCh.Keys|) < CloserWork(s.closer, |s.exitCh.Keys|);
  }

  /** Every step except a new SendEvent decreases the measure. */
  lemma StepDecreases<E>(s: State<E>, a: Action<E>)
    requires Enabled(s, a) && !a.Send?
    ensures Measure(Apply(s, a)) < Measure(s)
  {
    if a.Receive? {
      ReceiveDecreases(s, a.w, a.ev);
    } else if a.Finish? || a.CloseSink? || a.Exit? {
      WorkerDecreases(s, a, a.w);
    } else if a.PickExit? {
      PickDecreases(s, a.name);
    } else {
      CloserDecreases(s, a);
    }
  }

  ghost predicate NoSends<E>(actions: seq<Action<E>>) {
    forall i :: 0 <= i < |actions| ==> !actions[i].Send?
  }

  /** Once nothing new is sent, every run is finite and no longer than the measure. */
  lemma {:induction false} RunsAreBounded<E>(s: State<E>, actions: seq<Action<E>>)
    requires Play(s, actions).Some? && NoSends(actions)
    ensures |actions| + Measure(Play(s, actions).value) <= Measure(s)
  {
    if |actions| > 0 {
      var n := |actions| - 1;
      RunsAreBounded(s, actions[..n]);
      StepDecreases(Play(s, actions[..n]).value, actions[n]);
    }
  }

  // ---------- No deadlock ----------

  lemma AllLatest(names: seq<string>, w: nat)
    requires Distinct(names) && w < |names|
    ensures Latest(names, w)
  {
  }

  /** While Close is under way, somebody can always move, even if no worker takes another event. */
  lemma Progress<E(!new)>(names: seq<string>, s: State<E>) returns (a: Action<E>)
    requires Ok(names, s) && Distinct(names) && names != []
    requires !s.closer.Open? && !s.closer.Returned?
    ensures Enabled(s, a) && !a.Send? && !a.Receive?
  {
    match s.closer
    case Signalling(Some(w), rest) =>
      assert s.ch[names[w]] == w && w < |s.workers|;
      assert !Signalled(names, s, w);
      a := if s.workers[w].phase.Idle? then Exit(w) else Finish(w, true);
    case Signalling(None, rest) =>
      if name :| name in rest { a := PickExit(name); } else { a := AllSignalled; }
    case Waiting =>
      if w :| 0 <= w < |s.workers| && !s.workers[w].phase.Exited? {
        AllLatest(names, w);
        assert Signalled(names, s, w);
        a := CloseSink(w);
      } else {
        a := Return;
      }
  }

  ghost predicate Stuck<E(!new)>(s: State<E>) {
    forall a: Action<E> :: Enabled(s, a) ==> a.Send?
  }

  ghost predicate ClosedLast<E(!new)>(w: Worker<E>) {
    w.phase.Exited? && Serial(w.calls) && w.calls != [] && w.calls[|w.calls| - 1].CloseCall?
  }

  lemma StuckMeansReturned<E(!new)>(names: seq<string>, s: State<E>)
    requires Ok(names, s) && Distinct(names) && names != [] && !s.closer.Open? && Stuck(s)
    ensures s.closer.Returned? && forall w :: 0 <= w < |s.workers| ==> ClosedLast(s.workers[w])
  {
    if !s.closer.Returned? {
      var a := Progress(names, s);
    }
    forall w | 0 <= w < |s.workers| ensures ClosedLast(s.workers[w]) { assert WorkerOk(s.workers[w]); }
  }

  /** With distinct names and at least one receiver: however the goroutines are interleaved, when
      nothing can move any more after Close began, Close has returned and every sink saw its Close,
      once, as its last call. */
  lemma CloseCompletes<E(!new)>(names: seq<string>, actions: seq<Action<E>>)
    requires Distinct(names) && names != []
    requires Play(Boot(names), actions).Some?
    requires var s := Play(Boot(names), actions).value; !s.closer.Open? && Stuck(s)
    ensures var s := Play(Boot(names), actions).value;
            s.closer.Returned? && forall w :: 0 <= w < |s.workers| ==> ClosedLast(s.workers[w])
  {
    Reachable(names, actions);
    StuckMeansReturned(names, Play(Boot(names), actions).value);
  }

  lemma PlaySnoc<E>(s: State<E>, actions: seq<Action<E>>, a: Action<E>)
    ensures Play(s, actions + [a]) == Then(Play(s, actions), a)
  {
    assert (actions + [a])[..|actions|] == actions;
  }

  lemma {:induction false} PlayConcat<E>(s: State<E>, a: seq<Action<E>>, b: seq<Action<E>>)
    requires Play(s, a).Some?
    ensures Play(s, a + b) == Play(Play(s, a).value, b)
  {
    if |b| == 0 {
      assert a + b == a;
    } else {
      var init, last := b[..|b| - 1], b[|b| - 1];
      assert b == init + [last] && a + b == (a + init) + [last];
      PlayConcat(s, a, init);
      PlaySnoc(s, a + init, last);
      PlaySnoc(Play(s, a).value, init, last);
    }
  }

  lemma PlayOne<E>(s: State<E>, a: Action<E>)
    requires Enabled(s, a)
    ensures Play(s, [a]) == Some(Apply(s, a))
  {
    PlaySnoc(s, [], a);
    assert [] + [a] == [a];
  }

  lemma StaysClosing<E>(s: State<E>, a: Action<E>)
    requires Enabled(s, a) && !s.closer.Open?
    ensures !Apply(s, a).closer.Open?
  {
  }

  /** A run to the end of Close in which no pending sender is served. */
  ghost predicate ReturnsUnserved<E(!new)>(s: State<E>, actions: seq<Action<E>>) {
    && Play(s, actions).Some? && NoSends(actions)
    && Play(s, actions).value.closer.Returned? && Play(s, actions).value.inFlight == s.inFlight
  }

  lemma Drive<E(!new)>(names: seq<string>, s: State<E>) returns (actions: seq<Action<E>>)
    requires Ok(names, s) && Distinct(names) && names != [] && !s.closer.Open?
    ensures ReturnsUnserved(s, actions)
    decreases Measure(s), 1
  {
    if s.closer.Returned? {
      actions := [];
    } else {
      var a := Progress(names, s);
      StaysClosing(s, a);
      actions := Prepend(names, s, a);
    }
  }

  lemma Prepend<E(!new)>(names: seq<string>, s: State<E>, a: Action<E>) returns (actions: seq<Action<E>>)
    requires Ok(names, s) && Distinct(names) && names != []
    requires Enabled(s, a) && !a.Send? && !a.Receive? && !Apply(s, a).closer.Open?
    ensures ReturnsUnserved(s, actions) && |actions| > 0 && actions[0] == a
    decreases Measure(s), 0
  {
    StepDecreases(s, a);
    StepOk(names, s, a);
    var rest := Drive(names, Apply(s, a));
    StepFirst(s, a, rest);
    actions := [a] + rest;
  }

  lemma StepFirst<E(!new)>(s: State<E>, a: Action<E>, rest: seq<Action<E>>)
    requires Enabled(s, a) && !a.Send? && !a.Receive? && ReturnsUnserved(Apply(s, a), rest)
    ensures ReturnsUnserved(s, [a] + rest)
  {
    PlayOne(s, a);
    PlayConcat(s, [a], rest);
    OthersStayPending(s, a);
  }

  lemma OthersStayPending<E>(s: State<E>, a: Action<E>)
    requires Enabled(s, a) && !a.Send? && !a.Receive?
    ensures Apply(s, a).inFlight == s.inFlight
  {
  }

  lemma CloseCanReturn<E(!new)>(names: seq<string>) returns (actions: seq<Action<E>>)
    requires names != [] && Distinct(names)
    ensures Play(Boot(names), actions).Some? && Play(Boot(names), actions).value.closer.Returned?
  {
    var s := Boot<E>(names);
    BootOk<E>(names);
    BootShape<E>(names);
    actions := Prepend(names, s, StartClose);
  }

  /** A worker whose name was registered again is out of Close's reach and never exits. */
  lemma ReturnedMeansDistinct<E(!new)>(names: seq<string>, s: State<E>)
    requires Ok(names, s) && s.closer.Returned?
    ensures names != [] && Distinct(names)
  {
    forall i, j | 0 <= i < j < |names| ensures names[i] != names[j] {
      assert Leaving(s.workers[i].phase) <==> Signalled(names, s, i);
      assert Latest(names, i);
    }
  }

  /** Close can return if and only if there is a receiver and all names differ: a second registration
      overwrites the first worker's exit channel, and without any registration there is no wait group. */
  lemma CloseReturnsIff<E(!new)>(names: seq<string>)
    ensures (exists actions: seq<Action<E>> ::
               Play(Boot(names), actions).Some? && Play(Boot(names), actions).value.closer.Returned?)
            <==> names != [] && Distinct(names)
  {
    if names != [] && Distinct(names) {
      var actions := CloseCanReturn<E>(names);
    }
    if actions: seq<Action<E>> :| Play(Boot(names), actions).Some?
                                  && Play(Boot(names), actions).value.closer.Returned? {
      Reachable(names, actions);
      ReturnedMeansDistinct(names, Play(Boot(names), actions).value);
    }
  }

  // ---------- Without Close ----------

  ghost predicate AllServed<E(!new)>(s: State<E>) {
    s.inFlight == multiset{} && forall w :: 0 <= w < |s.workers| ==> s.workers[w].phase.Idle?
  }

  /** As long as Close has not begun, somebody can move until everything sent has been delivered. */
  lemma ServingProgress<E(!new)>(names: seq<string>, s: State<E>) returns (a: Action<E>)
    requires Ok(names, s) && s.closer.Open? && !AllServed(s)
    ensures Enabled(s, a) && (a.Receive? || a.Finish?)
  {
    assert forall w :: 0 <= w < |s.workers| ==> !Signalled(names, s, w);
    if w :| 0 <= w < |s.workers| && s.workers[w].phase.Sending? {
      a := Finish(w, true);
    } else {
      var m :| m in s.inFlight;
      a := Receive(m.0, m.1);
    }
  }

  /** Nothing can happen unless somebody calls SendEvent or Close. */
  ghost predicate AtRest<E(!new)>(s: State<E>) {
    forall a: Action<E> :: Enabled(s, a) ==> a.Send? || a.StartClose?
  }

  /** Whatever the interleaving, when the registry has come to rest before Close, everything sent to a
      receiver has been delivered. Without new sends it comes to rest, since every run is bounded. */
  lemma RestMeansServed<E(!new)>(names: seq<string>, before: seq<Action<E>>)
    requires Play(Boot(names), before).Some?
    requires var s := Play(Boot(names), before).value; s.closer.Open? && AtRest(s)
    ensures AllServed(Play(Boot(names), before).value)
  {
    Reachable(names, before);
    RestServed(names, Play(Boot(names), before).value);
  }

  lemma RestServed<E(!new)>(names: seq<string>, s: State<E>)
    requires Ok(names, s) && s.closer.Open? && AtRest(s)
    ensures AllServed(s)
  {
    if !AllServed(s) {
      var a := ServingProgress(names, s);
    }
  }

  ghost predicate Serves<E(!new)>(s: State<E>, actions: seq<Action<E>>) {
    && NoSends(actions) && Play(s, actions).Some?
    && var t := Play(s, actions).value;
       AllServed(t) && t.closer.Open? && t.sends == s.sends
  }

  lemma Serve<E(!new)>(names: seq<string>, s: State<E>) returns (actions: seq<Action<E>>)
    requires Ok(names, s) && s.closer.Open?
    ensures Serves(s, actions)
    decreases Measure(s)
  {
    if AllServed(s) {
      actions := [];
    } else {
      var a := ServingProgress(names, s);
      StepDecreases(s, a);
      StepOk(names, s, a);
      StaysOpen(s, a);
      var rest := Serve(names, Apply(s, a));
      ServeFirst(s, a, rest);
      actions := [a] + rest;
    }
  }

  lemma StaysOpen<E>(s: State<E>, a: Action<E>)
    requires Enabled(s, a) && (a.Receive? || a.Finish?) && s.closer.Open?
    ensures Apply(s, a).closer.Open? && Apply(s, a).sends == s.sends
  {
  }

  lemma ServeFirst<E(!new)>(s: State<E>, a: Action<E>, rest: seq<Action<E>>)
    requires Enabled(s, a) && (a.Receive? || a.Finish?) && s.closer.Open? && Serves(Apply(s, a), rest)
    ensures Serves(s, [a] + rest)
  {
    PlayOne(s, a);
    PlayConcat(s, [a], rest);
    StaysOpen(s, a);
  }

  // ---------- What is lost ----------

  lemma {:induction false} NothingPendingStays<E>(s: State<E>, actions: seq<Action<E>>)
    requires Play(s, actions).Some? && NoSends(actions) && s.inFlight == multiset{}
    ensures Play(s, actions).value.inFlight == multiset{}
  {
    if |actions| > 0 { NothingPendingStays(s, actions[..|actions| - 1]); }
  }

  /** The run starts with Close, sends nothing new and gets to the end of Close. */
  ghost predicate Shutdown<E(!new)>(s: State<E>, actions: seq<Action<E>>) {
    && |actions| > 0 && actions[0] == StartClose && NoSends(actions)
    && Play(s, actions).Some? && Play(s, actions).value.closer.Returned?
  }

  /** Close does not wait for senders: it is certain to lose nothing, whatever the interleaving, if and only
      if no sender is pending when it is called. Events already taken by a worker are always delivered. */
  lemma CloseLosesNothingIff<E(!new)>(names: seq<string>, before: seq<Action<E>>)
    requires Play(Boot(names), before).Some? && Play(Boot(names), before).value.closer.Open?
    requires Distinct(names) && names != []
    ensures var s := Play(Boot(names), before).value;
            (forall actions: seq<Action<E>> :: Shutdown(s, actions) ==> Play(s, actions).value.inFlight == multiset{})
            <==> s.inFlight == multiset{}
  {
    Reachable(names, before);
    var s := Play(Boot(names), before).value;
    if s.inFlight == multiset{} {
      forall actions: seq<Action<E>> | Shutdown(s, actions) ensures Play(s, actions).value.inFlight == multiset{} {
        NothingPendingStays(s, actions);
      }
    } else {
      var actions := Prepend(names, s, StartClose);
      assert Shutdown(s, actions);
    }
  }

  /** What may be left behind exactly: Close may return with any part of the pending sends still pending, since
      workers go on receiving until they are signalled. */
  lemma CloseLosesAnyPart<E(!new)>(names: seq<string>, before: seq<Action<E>>, left: multiset<(nat, E)>)
    requires Play(Boot(names), before).Some? && Play(Boot(names), before).value.closer.Open?
    requires Distinct(names) && names != []
    ensures var s := Play(Boot(names), before).value;
            (exists actions: seq<Action<E>> :: Shutdown(s, actions) && Play(s, actions).value.inFlight == left)
            <==> left <= s.inFlight
  {
    Reachable(names, before);
    var s := Play(Boot(names), before).value;
    if actions: seq<Action<E>> :| Shutdown(s, actions) && Play(s, actions).value.inFlight == left {
      PendingShrinks(s, actions);
    }
    if left <= s.inFlight {
      var actions := LeaveBehind(names, s, left);
    }
  }

  lemma {:induction false} PendingShrinks<E>(s: State<E>, actions: seq<Action<E>>)
    requires Play(s, actions).Some? && NoSends(actions)
    ensures Play(s, actions).value.inFlight <= s.inFlight
  {
    if |actions| > 0 { PendingShrinks(s, actions[..|actions| - 1]); }
  }

  lemma LeaveBehind<E(!new)>(names: seq<string>, s: State<E>, left: multiset<(nat, E)>)
    returns (actions: seq<Action<E>>)
    requires Ok(names, s) && Distinct(names) && names != [] && s.closer.Open? && left <= s.inFlight
    ensures Shutdown(s, actions) && Play(s, actions).value.inFlight == left
  {
    var r := Apply(s, StartClose);
    StepOk(names, s, StartClose);
    var trim := Trim(names, r, left);
    PlayOk(names, r, trim);
    var rest := Drive(names, Play(r, trim).value);
    TrimThenReturn(r, left, trim, rest);
    CloseFirst(s, left, trim + rest);
    actions := [StartClose] + (trim + rest);
  }

  /** A run without sends to the end of Close that leaves just these pending. */
  ghost predicate Leaves<E(!new)>(s: State<E>, left: multiset<(nat, E)>, actions: seq<Action<E>>) {
    && NoSends(actions) && Play(s, actions).Some?
    && Play(s, actions).value.closer.Returned? && Play(s, actions).value.inFlight == left
  }

  lemma TrimThenReturn<E(!new)>(s: State<E>, left: multiset<(nat, E)>, trim: seq<Action<E>>, rest: seq<Action<E>>)
    requires Trims(s, left, trim) && ReturnsUnserved(Play(s, trim).value, rest)
    ensures Leaves(s, left, trim + rest)
  {
    PlayConcat(s, trim, rest);
  }

  lemma CloseFirst<E(!new)>(s: State<E>, left: multiset<(nat, E)>, more: seq<Action<E>>)
    requires Enabled(s, StartClose) && Leaves(Apply(s, StartClose), left, more)
    ensures Shutdown(s, [StartClose] + more) && Play(s, [StartClose] + more).value.inFlight == left
  {
    PlayOne(s, StartClose);
    PlayConcat(s, [StartClose], more);
  }

  /** Close has begun, but no worker has been signalled. */
  ghost predicate JustClosing<E>(s: State<E>) {
    s.closer == Signalling(None, s.exitCh.Keys)
  }

  /** A run that serves pending sends until just these are left, before the first worker is signalled. */
  ghost predicate Trims<E(!new)>(s: State<E>, left: multiset<(nat, E)>, actions: seq<Action<E>>) {
    && NoSends(actions) && Play(s, actions).Some?
    && Play(s, actions).value.inFlight == left && JustClosing(Play(s, actions).value)
  }

  lemma Trim<E(!new)>(names: seq<string>, s: State<E>, left: multiset<(nat, E)>) returns (actions: seq<Action<E>>)
    requires Ok(names, s) && JustClosing(s) && left <= s.inFlight
    ensures Trims(s, left, actions)
    decreases Measure(s)
  {
    if s.inFlight == left {
      actions := [];
    } else {
      var a := TrimProgress(names, s, left);
      StepDecreases(s, a);
      StepOk(names, s, a);
      TrimStep(s, left, a);
      var rest := Trim(names, Apply(s, a), left);
      TrimFirst(s, left, a, rest);
      actions := [a] + rest;
    }
  }

  lemma NobodyLeaving<E(!new)>(names: seq<string>, s: State<E>, w: nat)
    requires Ok(names, s) && JustClosing(s) && w < |s.workers|
    ensures !Leaving(s.workers[w].phase)
  {
    assert Leaving(s.workers[w].phase) <==> Signalled(names, s, w);
    if Latest(names, w) { assert names[w] in s.ch; }
  }

  /** The next step towards what is to be left: a pending send that is not to be left is taken, once its
      worker is free. */
  lemma TrimProgress<E(!new)>(names: seq<string>, s: State<E>, left: multiset<(nat, E)>) returns (a: Action<E>)
    requires Ok(names, s) && JustClosing(s) && left <= s.inFlight && left != s.inFlight
    ensures Enabled(s, a) && (a.Finish? || (a.Receive? && left[(a.w, a.ev)] < s.inFlight[(a.w, a.ev)]))
  {
    var m :| left[m] < s.inFlight[m];
    assert m in s.inFlight && m.0 < |s.workers|;
    NobodyLeaving(names, s, m.0);
    a := if s.workers[m.0].phase.Sending? then Finish(m.0, true) else Receive(m.0, m.1);
  }

  lemma TrimStep<E(!new)>(s: State<E>, left: multiset<(nat, E)>, a: Action<E>)
    requires Enabled(s, a) && (a.Finish? || (a.Receive? && left[(a.w, a.ev)] < s.inFlight[(a.w, a.ev)]))
    requires JustClosing(s) && left <= s.inFlight
    ensures JustClosing(Apply(s, a)) && left <= Apply(s, a).inFlight
  {
  }

  lemma TrimFirst<E(!new)>(s: State<E>, left: multiset<(nat, E)>, a: Action<E>, rest: seq<Action<E>>)
    requires Enabled(s, a) && !a.Send? && Trims(Apply(s, a), left, rest)
    ensures Trims(s, left, [a] + rest)
  {
    PlayOne(s, a);
    PlayConcat(s, [a], rest);
  }

  /** Close has returned: all workers are gone. */
  ghost predicate Over<E(!new)>(s: State<E>) {
    s.closer.Returned? && forall w :: 0 <= w < |s.workers| ==> s.workers[w].phase.Exited?
  }

  lemma {:induction false} OverForever<E(!new)>(s: State<E>, later: seq<Action<E>>)
    requires Over(s) && Play(s, later).Some?
    ensures var t := Play(s, later).value; Over(t) && t.workers == s.workers && t.ch == s.ch && s.inFlight <= t.inFlight
  {
    if |later| > 0 { OverForever(s, later[..|later| - 1]); }
  }

  /** After Close has returned SendEvent still does not block or fail, but what it sends to a receiver stays
      pending whatever happens later. */
  lemma LateSendIsLost<E(!new)>(names: seq<string>, actions: seq<Action<E>>, name: string, ev: E,
                                later: seq<Action<E>>)
    requires Play(Boot(names), actions).Some? && Play(Boot(names), actions).value.closer.Returned?
    ensures var s := Play(Boot(names), actions).value;
            && Play(s, [Send(name, ev)]).Some?
            && (name in names && Play(Play(s, [Send(name, ev)]).value, later).Some? ==>
                  var t := Play(Play(s, [Send(name, ev)]).value, later).value;
                  name in t.ch && (t.ch[name], ev) in t.inFlight && t.workers == s.workers)
  {
    Reachable(names, actions);
    var s := Play(Boot(names), actions).value;
    assert CloserOk(names, s);
    PlayOne(s, Send(name, ev));
    var r := Apply(s, Send(name, ev));
    if name in names && Play(r, later).Some? {
      NamedHasChannel(names, s, name);
      OverForever(r, later);
    }
  }

  lemma NamedHasChannel<E(!new)>(names: seq<string>, s: State<E>, name: string)
    requires Shape(names, s) && name in names
    ensures name in s.ch
  {
    var w := LastIndex(names, name);
  }

  lemma ExitedStep<E>(s: State<E>, a: Action<E>, w: nat)
    requires Enabled(s, a) && w < |s.workers| && s.workers[w].phase.Exited?
    ensures |Apply(s, a).workers| == |s.workers| && Apply(s, a).workers[w] == s.workers[w]
  {
  }

  lemma {:induction false} ExitedForever<E>(s: State<E>, actions: seq<Action<E>>, w: nat)
    requires Play(s, actions).Some? && w < |s.workers| && s.workers[w].phase.Exited?
    ensures var t := Play(s, actions).value; |t.workers| == |s.workers| && t.workers[w] == s.workers[w]
  {
    if |actions| > 0 {
      var n := |actions| - 1;
      ExitedForever(s, actions[..n], w);
      ExitedStep(Play(s, actions[..n]).value, actions[n], w);
    }
  }

  lemma ReturnedAccounts<E(!new)>(names: seq<string>, s: State<E>, w: nat, ev: E)
    requires Ok(names, s) && s.closer.Returned? && w < |names|
    ensures s.workers[w].phase.Exited?
    ensures multiset(Delivered(s.workers[w].calls))[ev] + s.inFlight[(w, ev)]
            == multiset(SentTo(s.ch, s.sends, w))[ev]
  {
    assert ConservedAt(s, w, ev);
    assert WorkerOk(s.workers[w]);
  }

  /** After Close has returned, an event was delivered or it never will be: each copy sent to a worker
      is among the delivered ones or is still with its sender, and no later run delivers any more. */
  lemma LostAfterClose<E(!new)>(names: seq<string>, actions: seq<Action<E>>, later: seq<Action<E>>, w: nat, ev: E)
    requires Play(Boot(names), actions).Some? && Play(Boot(names), actions).value.closer.Returned?
    requires Play(Play(Boot(names), actions).value, later).Some? && w < |names|
    ensures var s := Play(Boot(names), actions).value;
            var t := Play(s, later).value;
            && |s.workers| == |t.workers| == |names|
            && multiset(Delivered(s.workers[w].calls))[ev] + s.inFlight[(w, ev)]
               == multiset(SentTo(s.ch, s.sends, w))[ev]
            && t.workers[w].calls == s.workers[w].calls
  {
    Reachable(names, actions);
    ReturnedAccounts(names, Play(Boot(names), actions).value, w, ev);
    ExitedForever(Play(Boot(names), actions).value, later, w);
  }
}
