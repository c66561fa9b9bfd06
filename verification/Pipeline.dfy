/**
 The exporter end to end: informer notifications go through intake, the routing tree and the channel
 registry, and into a batching sink. What each receiver gets is characterised by the notifications
 themselves and the flattened tree.
 */
module Pipeline {
  import opened Kube
  import opened Wrappers
  import opened Routing
  import opened Routes
  import opened Intake
  import opened SyncRegistry
  import opened RegistryRefinement
  import CR = ChannelRegistry
  import RS = RegistrySafety
  import SD = RegistryShutdown
  import BW = BatchWriter
  import BD = BatchWriterDelivery
  import BP = BatchWriterProofs
  import BQ = BigQuery

  /** All SendEvent calls made for the handled events, in order. */
  function Emitted<R>(rx: Regexp<R>, tree: RouteSource, handled: seq<EnhancedEvent>): seq<(string, EnhancedEvent)> {
    if |handled| == 0 then []
    else
      var n := |handled| - 1;
      Emitted(rx, tree, handled[..n]) + Tag(Emissions(MeaningFor(rx, handled[n]), tree), handled[n])
  }

  /** How many guards of the flat list fire for this receiver. */
  function Firing(m: Meaning, gs: seq<Guard>, name: string): nat {
    if |gs| == 0 then 0
    else (if Fires(m, gs[0]) && gs[0].rule.receiver == name then 1 else 0) + Firing(m, gs[1..], name)
  }

  function Repeat<E>(ev: E, n: nat): seq<E> { seq(n, i => ev) }

  /** The reference: every handled event, once for each guard of the flattened tree that fires. */
  function Expected<R>(rx: Regexp<R>, tree: RouteSource, handled: seq<EnhancedEvent>, name: string)
    : seq<EnhancedEvent>
  {
    if |handled| == 0 then []
    else
      var n := |handled| - 1;
      Expected(rx, tree, handled[..n], name)
      + Repeat(handled[n], Firing(MeaningFor(rx, handled[n]), Flatten([], [], tree), name))
  }

  function Occurrences(name: string, receivers: seq<string>): nat {
    if |receivers| == 0 then 0
    else (if receivers[0] == name then 1 else 0) + Occurrences(name, receivers[1..])
  }

  lemma {:induction false} EventsForConcat<E>(name: string, a: seq<(string, E)>, b: seq<(string, E)>)
    ensures EventsFor(name, a + b) == EventsFor(name, a) + EventsFor(name, b)
  {
    if |b| == 0 {
      assert a + b == a;
    } else {
      var n := |b| - 1;
      assert (a + b)[..|a| + n] == a + b[..n];
      EventsForConcat(name, a, b[..n]);
    }
  }

  lemma {:induction false} TagEvents<E>(name: string, receivers: seq<string>, ev: E)
    ensures EventsFor(name, Tag(receivers, ev)) == Repeat(ev, Occurrences(name, receivers))
  {
    if |receivers| > 0 {
      TagEvents(name, receivers[1..], ev);
      assert Tag(receivers, ev) == [(receivers[0], ev)] + Tag(receivers[1..], ev);
      EventsForConcat(name, [(receivers[0], ev)], Tag(receivers[1..], ev));
      assert [(receivers[0], ev)][..0] == [];
    }
  }

  lemma {:induction false} FiredOccurrences(m: Meaning, gs: seq<Guard>, name: string)
    ensures Occurrences(name, Fired(m, gs)) == Firing(m, gs, name)
  {
    if |gs| > 0 {
      FiredOccurrences(m, gs[1..], name);
      var rest := Fired(m, gs[1..]);
      assert [] + rest == rest && ([gs[0].rule.receiver] + rest)[1..] == rest;
    }
  }

  /** What routing sends to a receiver is what the flat list says. */
  lemma {:induction false} EmittedAsExpected<R>(rx: Regexp<R>, tree: RouteSource, handled: seq<EnhancedEvent>,
                                                name: string)
    ensures EventsFor(name, Emitted(rx, tree, handled)) == Expected(rx, tree, handled, name)
  {
    if |handled| > 0 {
      var n := |handled| - 1;
      var m := MeaningFor(rx, handled[n]);
      EmittedAsExpected(rx, tree, handled[..n], name);
      EventsForConcat(name, Emitted(rx, tree, handled[..n]), Tag(Emissions(m, tree), handled[n]));
      TagEvents(name, Emissions(m, tree), handled[n]);
      FlattenPreservesMeaning(m, tree);
      FiredOccurrences(m, Flatten([], [], tree), name);
    }
  }

  // ---------- The running exporter ----------

  datatype Setup<!R> = Setup(cfg: Config, rx: Regexp<R>, tree: RouteSource, names: seq<string>)

  /** `todo` are the SendEvent calls that the informer's goroutine has still to make for the current event. */
  datatype Exporter = Exporter(tally: Tally, todo: seq<(string, EnhancedEvent)>, reg: CR.State<EnhancedEvent>)

  datatype Step =
    | Notify(n: Notice)                       // the informer calls OnAdd, OnUpdate or OnDelete
    | SendNext                                // the next SendEvent call of OnEvent
    | Work(a: CR.Action<EnhancedEvent>)       // anything the registry's goroutines and Close do

  predicate Possible(s: Exporter, step: Step) {
    match step
    case Notify(_) => s.todo == []
    case SendNext => s.todo != []
    case Work(a) => !a.Send? && CR.Enabled(s.reg, a)
  }

  function CallsFor<R>(c: Setup<R>, n: Notice): seq<(string, EnhancedEvent)> {
    if n.Deleted? || TooOld(c.cfg, n.ev, n.now) then []
    else
      var h := Enhance(c.cfg, n.ev, n.lookup);
      Tag(Emissions(MeaningFor(c.rx, h), c.tree), h)
  }

  function Take<R>(c: Setup<R>, s: Exporter, step: Step): Exporter
    requires Possible(s, step)
  {
    match step
    case Notify(n) => Exporter(TallyNext(c.cfg, s.tally, n), CallsFor(c, n), s.reg)
    case SendNext => Exporter(s.tally, s.todo[1..], CR.Apply(s.reg, CR.Send(s.todo[0].0, s.todo[0].1)))
    case Work(a) => s.(reg := CR.Apply(s.reg, a))
  }

  function Begin<R>(c: Setup<R>): Exporter { Exporter(Tally(0, 0, 0, []), [], CR.Boot(c.names)) }

  function TakeNext<R>(c: Setup<R>, r: Option<Exporter>, step: Step): Option<Exporter> {
    if r.Some? && Possible(r.value, step) then Some(Take(c, r.value, step)) else None
  }

  /** Any interleaving of notifications, sends, workers and Close. */
  function Execute<R>(c: Setup<R>, steps: seq<Step>): Option<Exporter> {
    if |steps| == 0 then Some(Begin(c))
    else TakeNext(c, Execute(c, steps[..|steps| - 1]), steps[|steps| - 1])
  }

  /** The notifications of a run. */
  function Heard(steps: seq<Step>): seq<Notice> {
    if |steps| == 0 then []
    else
      var last := steps[|steps| - 1];
      Heard(steps[..|steps| - 1]) + (if last.Notify? then [last.n] else [])
  }

  ghost predicate ExporterOk<R>(c: Setup<R>, heard: seq<Notice>, s: Exporter) {
    && s.tally == TallyRun(c.cfg, heard)
    && s.reg.sends + s.todo == Emitted(c.rx, c.tree, s.tally.handled)
    && RS.Ok(c.names, s.reg)
  }

  lemma NotifyOk<R>(c: Setup<R>, heard: seq<Notice>, s: Exporter, n: Notice)
    requires ExporterOk(c, heard, s) && Possible(s, Notify(n))
    ensures ExporterOk(c, heard + [n], Take(c, s, Notify(n)))
  {
    assert (heard + [n])[..|heard|] == heard;
    var t := Take(c, s, Notify(n));
    if !n.Deleted? && !TooOld(c.cfg, n.ev, n.now) {
      assert t.tally.handled[..|s.tally.handled|] == s.tally.handled;
      assert s.reg.sends + [] == s.reg.sends;
    } else {
      assert t.tally.handled == s.tally.handled;
    }
  }

  lemma SendFirst(s: Exporter)
    requires s.todo != []
    ensures CR.Apply(s.reg, CR.Send(s.todo[0].0, s.todo[0].1)).sends + s.todo[1..] == s.reg.sends + s.todo
  {
  }

  lemma SendNextOk<R>(c: Setup<R>, heard: seq<Notice>, s: Exporter)
    requires ExporterOk(c, heard, s) && Possible(s, SendNext)
    ensures ExporterOk(c, heard, Take(c, s, SendNext))
  {
    SendFirst(s);
    RS.StepOk(c.names, s.reg, CR.Send(s.todo[0].0, s.todo[0].1));
  }

  lemma WorkOk<R>(c: Setup<R>, heard: seq<Notice>, s: Exporter, a: CR.Action<EnhancedEvent>)
    requires ExporterOk(c, heard, s) && Possible(s, Work(a))
    ensures ExporterOk(c, heard, Take(c, s, Work(a)))
  {
    RS.StepOk(c.names, s.reg, a);
    assert CR.Apply(s.reg, a).sends == s.reg.sends;
  }

  lemma StepOk<R>(c: Setup<R>, heard: seq<Notice>, s: Exporter, step: Step)
    requires ExporterOk(c, heard, s) && Possible(s, step)
    ensures ExporterOk(c, heard + (if step.Notify? then [step.n] else []), Take(c, s, step))
  {
    assert heard + [] == heard;
    match step
    case Notify(n) => NotifyOk(c, heard, s, n);
    case SendNext => SendNextOk(c, heard, s);
    case Work(a) => WorkOk(c, heard, s, a);
  }

  lemma BeginOk<R>(c: Setup<R>)
    ensures ExporterOk(c, [], Begin(c))
  {
    RS.BootOk<EnhancedEvent>(c.names);
    RS.BootShape<EnhancedEvent>(c.names);
  }

  lemma {:induction false} ExecuteOk<R>(c: Setup<R>, steps: seq<Step>)
    requires Execute(c, steps).Some?
    ensures ExporterOk(c, Heard(steps), Execute(c, steps).value)
  {
    if |steps| == 0 {
      BeginOk(c);
    } else {
      var init, last := steps[..|steps| - 1], steps[|steps| - 1];
      ExecuteOk(c, init);
      StepOk(c, Heard(init), Execute(c, init).value, last);
    }
  }

  // ---------- End to end ----------

  /** The reference: what these notifications owe a receiver. Each young one, enhanced, counts once for
      every guard of the flattened tree that fires. */
  function Owed<R>(c: Setup<R>, notices: seq<Notice>, name: string): seq<EnhancedEvent> {
    Expected(c.rx, c.tree, EnhanceAll(c.cfg, Young(c.cfg, notices)), name)
  }

  /** Nothing for this receiver is under way. */
  ghost predicate NothingPending(s: Exporter, name: string)
    requires name in s.reg.ch && s.reg.ch[name] < |s.reg.workers|
  {
    Quiescent(s.reg, s.reg.ch[name]) && EventsFor(name, s.todo) == []
  }

  function Received(s: Exporter, name: string): seq<EnhancedEvent>
    requires name in s.reg.ch && s.reg.ch[name] < |s.reg.workers|
  {
    RS.Delivered(s.reg.workers[s.reg.ch[name]].calls)
  }

  /** A part of everything, and everything exactly if the condition holds. */
  lemma PartOfRest<E(!new)>(got: multiset<E>, sent: multiset<E>, rest: multiset<E>, all: multiset<E>)
    requires all == sent + rest && got <= sent
    ensures got <= all && (got == all <==> got == sent && rest == multiset{})
  {
    if got == all {
      assert |all| == |sent| + |rest| && |sent| == |got| + |sent - got|;
      assert rest == multiset{} by { if |rest| > 0 { assert false; } }
      assert sent + multiset{} == sent;
    }
    if rest == multiset{} { assert sent + multiset{} == sent; }
  }

  /**
   End to end, for every run of the exporter, whatever the notifications, lookup results, tree, list of
   receivers and interleaving: what a receiver's sink has got is part of what the notifications heard owe
   it, and all of it, as a multiset, if and only if nothing for it is still under way.
   */
  lemma EndToEnd<R>(c: Setup<R>, steps: seq<Step>, name: string)
    requires Execute(c, steps).Some? && name in c.names
    ensures var s := Execute(c, steps).value;
            && name in s.reg.ch && s.reg.ch[name] < |s.reg.workers|
            && var got, all := multiset(Received(s, name)), multiset(Owed(c, Heard(steps), name));
               got <= all && (got == all <==> NothingPending(s, name))
  {
    ExecuteOk(c, steps);
    var s := Execute(c, steps).value;
    StateRefinesSync(c.names, s.reg, name);
    HandledAreYoung(c.cfg, Heard(steps));
    EmittedAsExpected(c.rx, c.tree, s.tally.handled, name);
    EventsForConcat(name, s.reg.sends, s.todo);
    var rest := EventsFor(name, s.todo);
    PartOfRest(multiset(Received(s, name)), multiset(EventsFor(name, s.reg.sends)), multiset(rest),
               multiset(Owed(c, Heard(steps), name)));
    assert rest == [] <==> |multiset(rest)| == 0;
  }

  // ---------- Everything can arrive ----------

  lemma ExecuteThen<R>(c: Setup<R>, steps: seq<Step>, step: Step)
    ensures Execute(c, steps + [step]) == TakeNext(c, Execute(c, steps), step)
    ensures Heard(steps + [step]) == Heard(steps) + (if step.Notify? then [step.n] else [])
  {
    assert (steps + [step])[..|steps|] == steps;
  }

  /** A continuation that has heard just these notifications more and made all calls, Close being where it
      was. */
  ghost predicate Caught<R>(c: Setup<R>, before: seq<Step>, notices: seq<Notice>, steps: seq<Step>) {
    && Execute(c, before).Some? && Execute(c, steps).Some? && Heard(steps) == Heard(before) + notices
    && Execute(c, steps).value.todo == []
    && Execute(c, steps).value.reg.closer == Execute(c, before).value.reg.closer
  }

  /** The informer's goroutine is never held up: it can always make its calls, even after Close. */
  lemma SendOut<R>(c: Setup<R>, before: seq<Step>) returns (steps: seq<Step>)
    requires Execute(c, before).Some?
    ensures Caught(c, before, [], steps)
    decreases if Execute(c, before).Some? then |Execute(c, before).value.todo| else 0
  {
    assert Heard(before) + [] == Heard(before);
    if Execute(c, before).value.todo == [] {
      steps := before;
    } else {
      ExecuteThen(c, before, SendNext);
      steps := SendOut(c, before + [SendNext]);
    }
  }

  /** After any run, any further notifications can be heard and acted upon. */
  lemma {:induction false} CatchAll<R>(c: Setup<R>, before: seq<Step>, notices: seq<Notice>) returns (steps: seq<Step>)
    requires Execute(c, before).Some?
    ensures Caught(c, before, notices, steps)
  {
    if |notices| == 0 {
      steps := SendOut(c, before);
    } else {
      var init, last := notices[..|notices| - 1], notices[|notices| - 1];
      var r := CatchAll(c, before, init);
      steps := CatchOne(c, before, init, r, last);
      assert notices == init + [last];
    }
  }

  lemma CatchOne<R>(c: Setup<R>, before: seq<Step>, notices: seq<Notice>, r: seq<Step>, next: Notice)
    returns (steps: seq<Step>)
    requires Caught(c, before, notices, r)
    ensures Caught(c, before, notices + [next], steps)
  {
    ExecuteThen(c, r, Notify(next));
    NotifyKeepsCloser(c, Execute(c, r).value, next);
    steps := SendOut(c, r + [Notify(next)]);
    var heard := Heard(before) + notices;
    assert heard + [next] == Heard(before) + (notices + [next]);
    assert heard + [next] + [] == heard + [next];
  }

  lemma NotifyKeepsCloser<R>(c: Setup<R>, s: Exporter, n: Notice)
    requires s.todo == []
    ensures Possible(s, Notify(n)) && Take(c, s, Notify(n)).reg.closer == s.reg.closer
  {
  }

  function WorkSteps(actions: seq<CR.Action<EnhancedEvent>>): seq<Step> {
    seq(|actions|, i requires 0 <= i < |actions| => Work(actions[i]))
  }

  lemma {:induction false} WorkOn<R>(c: Setup<R>, before: seq<Step>, actions: seq<CR.Action<EnhancedEvent>>)
    requires Execute(c, before).Some? && SD.NoSends(actions)
    requires CR.Play(Execute(c, before).value.reg, actions).Some?
    ensures var s := Execute(c, before).value;
            Execute(c, before + WorkSteps(actions)) == Some(s.(reg := CR.Play(s.reg, actions).value))
    ensures Heard(before + WorkSteps(actions)) == Heard(before)
  {
    if |actions| == 0 {
      assert before + WorkSteps(actions) == before;
    } else {
      var init, last := actions[..|actions| - 1], actions[|actions| - 1];
      WorkOn(c, before, init);
      assert before + WorkSteps(actions) == (before + WorkSteps(init)) + [Work(last)];
      ExecuteThen(c, before + WorkSteps(init), Work(last));
    }
  }

  /** For every sequence of notifications there is a run after which every receiver has got everything it
      is owed. */
  lemma EverythingCanArrive<R>(c: Setup<R>, notices: seq<Notice>) returns (steps: seq<Step>)
    ensures Execute(c, steps).Some? && Heard(steps) == notices
    ensures forall name :: name in c.names ==> HasAll(c, notices, Execute(c, steps).value, name)
  {
    var caught := CatchAll(c, [], notices);
    RS.BootShape<EnhancedEvent>(c.names);
    assert [] + notices == notices;
    ExecuteOk(c, caught);
    var actions := SD.Serve(c.names, Execute(c, caught).value.reg);
    WorkOn(c, caught, actions);
    steps := caught + WorkSteps(actions);
    forall name | name in c.names ensures HasAll(c, notices, Execute(c, steps).value, name) {
      ServedHasAll(c, steps, name);
    }
  }

  ghost predicate HasAll<R>(c: Setup<R>, notices: seq<Notice>, s: Exporter, name: string) {
    && name in s.reg.ch && s.reg.ch[name] < |s.reg.workers|
    && multiset(Received(s, name)) == multiset(Owed(c, notices, name))
  }

  lemma ServedHasAll<R>(c: Setup<R>, steps: seq<Step>, name: string)
    requires Execute(c, steps).Some? && name in c.names
    requires Execute(c, steps).value.todo == [] && SD.AllServed(Execute(c, steps).value.reg)
    ensures HasAll(c, Heard(steps), Execute(c, steps).value, name)
  {
    EndToEnd(c, steps, name);
  }

  // ---------- Everything does arrive ----------

  /** Nothing can happen unless there is a new notification or somebody calls Close. */
  ghost predicate AtRest(s: Exporter) {
    forall step: Step :: Possible(s, step) ==> step.Notify? || step == Work(CR.StartClose)
  }

  /** However the goroutines are interleaved, when the exporter has come to rest before Close, every
      receiver has got exactly what the notifications owe it. */
  lemma RestMeansAll<R>(c: Setup<R>, steps: seq<Step>, name: string)
    requires Execute(c, steps).Some? && name in c.names
    requires Execute(c, steps).value.reg.closer.Open? && AtRest(Execute(c, steps).value)
    ensures HasAll(c, Heard(steps), Execute(c, steps).value, name)
  {
    ExecuteOk(c, steps);
    RestServes(c, Heard(steps), Execute(c, steps).value);
    ServedHasAll(c, steps, name);
  }

  lemma RestServes<R>(c: Setup<R>, heard: seq<Notice>, s: Exporter)
    requires ExporterOk(c, heard, s) && s.reg.closer.Open? && AtRest(s)
    ensures s.todo == [] && SD.AllServed(s.reg)
  {
    assert !Possible(s, SendNext);
    forall a: CR.Action<EnhancedEvent> | CR.Enabled(s.reg, a) ensures a.Send? || a.StartClose? {
      if !a.Send? { assert Possible(s, Work(a)); }
    }
    SD.RestServed(c.names, s.reg);
  }

  /** Calls to make, and what the registry has to do for them and for those made. */
  function Remaining(s: Exporter): nat { 3 * |s.todo| + SD.Measure(s.reg) }

  lemma StepShrinks<R>(c: Setup<R>, s: Exporter, step: Step)
    requires Possible(s, step) && !step.Notify?
    ensures Remaining(Take(c, s, step)) < Remaining(s)
  {
    match step
    case Work(a) => SD.StepDecreases(s.reg, a);
    case SendNext =>
      var name, ev := s.todo[0].0, s.todo[0].1;
      if name in s.reg.ch { assert |s.reg.inFlight + multiset{(s.reg.ch[name], ev)}| == |s.reg.inFlight| + 1; }
  }

  /** And it does come to rest: without new notifications every run is bounded. */
  lemma {:induction false} RestIsReached<R>(c: Setup<R>, before: seq<Step>, more: seq<Step>)
    requires Execute(c, before).Some? && Execute(c, before + more).Some?
    requires forall i :: 0 <= i < |more| ==> !more[i].Notify?
    ensures |more| + Remaining(Execute(c, before + more).value) <= Remaining(Execute(c, before).value)
  {
    if |more| == 0 {
      assert before + more == before;
    } else {
      var init, last := more[..|more| - 1], more[|more| - 1];
      assert before + more == (before + init) + [last];
      ExecuteThen(c, before + init, last);
      RestIsReached(c, before, init);
      StepShrinks(c, Execute(c, before + init).value, last);
    }
  }

  // ---------- Into a batching sink ----------

  function Submissions<T>(work: seq<BW.Action<T>>): seq<T> {
    if |work| == 0 then []
    else
      var n := |work| - 1;
      Submissions(work[..n]) + (if work[n].Submitted? then [work[n].item] else [])
  }

  lemma {:induction false} AcceptedAreSubmitted<T(!new)>(p: BW.Params<T>, work: seq<BW.Action<T>>)
    requires BW.WellBehaved(p) && forall i :: 0 <= i < |work| ==> !work[i].Stopped?
    ensures BW.Run(p, BW.Start(), work).accepted == Submissions(work) && !BW.Run(p, BW.Start(), work).stopped
  {
    if |work| > 0 {
      AcceptedAreSubmitted(p, work[..|work| - 1]);
    }
  }

  /** A batching sink after this work and its Close. */
  function ClosedSink<T(!new)>(p: BW.Params<T>, work: seq<BW.Action<T>>): BW.History<T>
    requires BW.WellBehaved(p)
  {
    BW.Run(p, BW.Start(), work + [BW.Stopped])
  }

  /** A closed sink whose handler never fails has handed exactly what was sent to it to the handler, in
      order. */
  lemma ClosedSinkHandsOverAll<T(!new)>(p: BW.Params<T>, work: seq<BW.Action<T>>)
    requires BW.WellBehaved(p) && BD.NeverFails(p) && p.batchSize >= 1
    requires forall i :: 0 <= i < |work| ==> !work[i].Stopped?
    ensures var s := ClosedSink(p, work);
            && (forall k :: 0 <= k < |BD.Handed(s.batches)| ==> BD.Handed(s.batches)[k] < |s.accepted|)
            && BD.ItemsAt(s.accepted, BD.Handed(s.batches)) == Submissions(work)
  {
    AcceptedAreSubmitted(p, work);
    BP.RunThen(p, BW.Start(), work, BW.Stopped);
    BD.ShutdownDeliversAll(p, work + [BW.Stopped]);
  }

  /** The values of the batches that BigQuery loaded. */
  function Loaded<T>(s: BW.History<T>, loads: nat -> bool): seq<T>
    requires forall k :: 0 <= k < |BD.Handed(s.batches)| ==> BD.Handed(s.batches)[k] < |s.accepted|
  {
    BQ.WithLoadKnown(loads, true, s.batches, |s.accepted|);
    BD.ItemsAt(s.accepted, BQ.WithLoad(loads, true, s.batches))
  }

  /** A closed BigQuery sink has loaded part of what was sent to it, and all of it if and only if every
      load worked: a load that fails loses its whole batch. */
  lemma ClosedSinkLoadsAllIff<T(!new)>(p: BW.Params<T>, work: seq<BW.Action<T>>, loads: nat -> bool)
    requires BW.WellBehaved(p) && BD.NeverFails(p) && p.batchSize >= 1
    requires forall i :: 0 <= i < |work| ==> !work[i].Stopped?
    ensures var s := ClosedSink(p, work);
            && (forall k :: 0 <= k < |BD.Handed(s.batches)| ==> BD.Handed(s.batches)[k] < |s.accepted|)
            && multiset(Loaded(s, loads)) <= multiset(Submissions(work))
            && (multiset(Loaded(s, loads)) == multiset(Submissions(work))
                <==> forall k :: 0 <= k < |s.batches| ==> loads(k))
  {
    ClosedSinkHandsOverAll(p, work);
    var s := ClosedSink(p, work);
    BP.RunInv(p, work + [BW.Stopped]);
    BQ.LoadedValues(p, s, loads);
  }

  /** The whole way: what BigQuery has loaded for a receiver after its sink was closed is, as a multiset,
      exactly what the notifications heard owe the receiver, if and only if nothing for it was still under
      way in the exporter and every load worked. */
  lemma EndToEndBatched<R>(c: Setup<R>, steps: seq<Step>, name: string, p: BW.Params<EnhancedEvent>,
                           work: seq<BW.Action<EnhancedEvent>>, loads: nat -> bool)
    requires Execute(c, steps).Some? && name in c.names
    requires BW.WellBehaved(p) && BD.NeverFails(p) && p.batchSize >= 1
    requires forall i :: 0 <= i < |work| ==> !work[i].Stopped?
    requires var s := Execute(c, steps).value;
             name in s.reg.ch && s.reg.ch[name] < |s.reg.workers| && Submissions(work) == Received(s, name)
    ensures var s, sink := Execute(c, steps).value, ClosedSink(p, work);
            && (forall k :: 0 <= k < |BD.Handed(sink.batches)| ==> BD.Handed(sink.batches)[k] < |sink.accepted|)
            && (multiset(Loaded(sink, loads)) == multiset(Owed(c, Heard(steps), name))
                <==> NothingPending(s, name) && forall k :: 0 <= k < |sink.batches| ==> loads(k))
  {
    EndToEnd(c, steps, name);
    ClosedSinkLoadsAllIff(p, work, loads);
    var loaded, got := multiset(Loaded(ClosedSink(p, work), loads)), multiset(Submissions(work));
    var all := multiset(Owed(c, Heard(steps), name));
    Between(loaded, got, all);
  }

  lemma Between<E(!new)>(a: multiset<E>, b: multiset<E>, c: multiset<E>)
    requires a <= b <= c
    ensures a == c <==> a == b && b == c
  {
    if a == c {
      forall e ensures a[e] == b[e] { assert a[e] <= b[e] <= c[e]; }
    }
  }
}
